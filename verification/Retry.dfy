/** The retry wrapper around every database call of the two workers. */
module Retry {
  import opened Options

  const STALL_THRESHOLD := 5
  const POISON_MAX_ATTEMPTS := 3
  const POISON_MIN_US := 60_000_000
  const SUSTAINED_US := 300_000_000

  /** The exception classes the wrapper tells apart. */
  datatype Error =
    | OperationalError
    | ProgramLimitExceeded
    | InterfaceError
    | OSError
    | ReadOnlySqlTransaction
    | InsufficientPrivilege
    | InternalError
    | OtherError

  /** ProgramLimitExceeded is an OperationalError, but about the statement. */
  predicate IsTransient(e: Error) { !e.ProgramLimitExceeded? && !e.OtherError? }

  /**
   One attempt: what the call did, when it ended, what on_poison would answer if asked now, and
   whether the stop event is set by the end of the sleep that follows.
   */
  datatype Attempt = Attempt(failure: Option<Error>, at: int, veto: bool, stop: bool)

  /** How the wrapper ended; Retrying when it is still sleeping after the last attempt given. */
  datatype Exit = Succeeded | GaveUp | Interrupted | Retrying

  /**
   A call's history: attempts used, those at which on_poison was asked, the attempt at which the
   stall and the sustained failure were notified, and whether on_recovery fired.
   */
  datatype Call = Call(
    used: nat, asked: set<nat>, stall: Option<nat>, sustained: Option<nat>, recovered: bool, exit: Exit)

  /** Whether the wrapper was given an on_poison hook, and its thresholds. */
  datatype Policy = Policy(onPoison: bool, maxAttempts: nat, minUs: int, stallThreshold: nat, sustainedUs: int)

  const DEFAULT := Policy(true, POISON_MAX_ATTEMPTS, POISON_MIN_US, STALL_THRESHOLD, SUSTAINED_US)

  predicate Failed(a: seq<Attempt>, i: nat)
    requires i < |a|
  {
    a[i].failure.Some?
  }

  /** A failure that counts towards giving up. */
  predicate Counts(a: seq<Attempt>, i: nat)
    requires i < |a|
  {
    a[i].failure.Some? && !IsTransient(a[i].failure.value)
  }

  /** time.monotonic() */
  predicate Monotonic(a: seq<Attempt>) { forall i, j :: 0 <= i <= j < |a| ==> a[i].at <= a[j].at }

  /** Attempts j..i all count, and on_poison was asked at none of them before i. */
  predicate Streak(a: seq<Attempt>, asked: set<nat>, j: nat, i: nat)
    requires i < |a|
  {
    j <= i && (forall k :: j <= k <= i ==> Counts(a, k)) && (forall k :: j <= k < i ==> k !in asked)
  }

  /** A streak long enough, in attempts and in time. */
  predicate Poisonous(a: seq<Attempt>, asked: set<nat>, p: Policy, i: nat)
    requires i < |a|
  {
    exists j :: 0 <= j <= i && Streak(a, asked, j, i) && i - j + 1 >= p.maxAttempts && a[i].at - a[j].at >= p.minUs
  }

  /** The failure may still end in giving up, and no veto has ruled that out yet. */
  predicate VerdictPending(a: seq<Attempt>, asked: set<nat>, p: Policy, i: nat)
    requires i < |a|
  {
    p.onPoison && Counts(a, i) && forall k :: 0 <= k <= i ==> k !in asked
  }

  /** A stall could be notified at attempt i. */
  predicate Stalls(a: seq<Attempt>, asked: set<nat>, p: Policy, i: nat)
    requires i < |a|
  {
    i + 1 >= p.stallThreshold && !VerdictPending(a, asked, p, i)
  }

  predicate IsSustained(a: seq<Attempt>, p: Policy, i: nat)
    requires i < |a|
  {
    a[i].at - a[0].at >= p.sustainedUs
  }

  /** The first n attempts all failed, were not given up on, and slept undisturbed. */
  ghost predicate WentOn(a: seq<Attempt>, asked: set<nat>, n: nat)
    requires n <= |a|
  {
    forall i: nat :: i < n ==> Failed(a, i) && !(i in asked && !a[i].veto) && !a[i].stop
  }

  /** The stall was notified at the first of `n` attempts that allows it, if any does. */
  ghost predicate StallIsFirst(a: seq<Attempt>, asked: set<nat>, p: Policy, stall: Option<nat>, n: nat)
    requires n <= |a|
  {
    && (stall.Some? ==> stall.value < n && Stalls(a, asked, p, stall.value)
                        && forall k: nat :: k < stall.value ==> !Stalls(a, asked, p, k))
    && (stall.None? ==> forall k: nat :: k < n ==> !Stalls(a, asked, p, k))
  }

  ghost predicate SustainedIsFirst(a: seq<Attempt>, p: Policy, sustained: Option<nat>, n: nat)
    requires n <= |a|
  {
    && (sustained.Some? ==> sustained.value < n && IsSustained(a, p, sustained.value)
                            && forall k: nat :: k < sustained.value ==> !IsSustained(a, p, k))
    && (sustained.None? ==> forall k: nat :: k < n ==> !IsSustained(a, p, k))
  }

  /** on_poison was asked, among the first n attempts, exactly at the end of each poisonous streak. */
  ghost predicate AskedRightly(a: seq<Attempt>, asked: set<nat>, p: Policy, n: nat)
    requires n <= |a|
  {
    && (forall i: nat :: i in asked ==> i < n)
    && forall i: nat :: i < n ==> (i in asked <==> p.onPoison && Counts(a, i) && Poisonous(a, asked, p, i))
  }

  /** Attempts that ended in a sleep. */
  function Slept(c: Call): nat {
    if c.exit == Succeeded || c.exit == GaveUp then (if c.used == 0 then 0 else c.used - 1) else c.used
  }

  ghost predicate Follows(a: seq<Attempt>, p: Policy, c: Call) {
    && c.used <= |a| && Slept(c) <= |a|
    && AskedRightly(a, c.asked, p, c.used)
    // every attempt but the last failed, was not given up on, and slept without being stopped
    && (c.used > 0 && !c.exit.Retrying? ==> WentOn(a, c.asked, c.used - 1))
    && (match c.exit
        case Succeeded => c.used > 0 && !Failed(a, c.used - 1)
        case GaveUp => c.used > 0 && c.used - 1 in c.asked && !a[c.used - 1].veto
        case Interrupted => c.used > 0 && Failed(a, c.used - 1) && a[c.used - 1].stop
                            && (c.used - 1 in c.asked ==> a[c.used - 1].veto)
        case Retrying => c.used == |a| && WentOn(a, c.asked, c.used))
    // the stall is notified once, at the first attempt from the threshold on without a pending verdict
    && StallIsFirst(a, c.asked, p, c.stall, Slept(c))
    && SustainedIsFirst(a, p, c.sustained, Slept(c))
    // on_recovery pairs with the stall at either way out
    && (c.recovered <==> c.stall.Some? && (c.exit == Succeeded || c.exit == GaveUp))
  }

  /** The current streak: the last `len` of n attempts; it cannot have started earlier. */
  ghost predicate StreakIs(a: seq<Attempt>, asked: set<nat>, n: nat, len: nat, start: Option<int>)
    requires n <= |a|
  {
    && len <= n
    && (forall k :: n - len <= k < n ==> Counts(a, k) && k !in asked)
    && (n > len ==> !Counts(a, n - len - 1) || n - len - 1 in asked)
    && start == if len == 0 then Option.None else Some(a[n - len].at)
  }

  /** The wrapper's counters decide as the whole history does. */
  lemma CountersDecide(a: seq<Attempt>, asked: set<nat>, p: Policy, n: nat, len: nat, start: Option<int>)
    requires Monotonic(a) && n < |a| && StreakIs(a, asked, n, len, start) && Counts(a, n)
    ensures Poisonous(a, asked, p, n) <==>
            len + 1 >= p.maxAttempts && a[n].at - (if start.None? then a[n].at else start.value) >= p.minUs
  {
    var j := n - len;
    assert Streak(a, asked, j, n);
    assert j > 0 ==> !Counts(a, j - 1) || j - 1 in asked;
    forall i | 0 <= i <= n && Streak(a, asked, i, n) ensures j <= i {}
  }

  lemma PoisonousLooksBack(a: seq<Attempt>, asked: set<nat>, p: Policy, n: nat, i: nat)
    requires i <= n < |a|
    ensures Poisonous(a, asked + {n}, p, i) <==> Poisonous(a, asked, p, i)
  {
    assert forall j :: 0 <= j <= i ==> (Streak(a, asked + {n}, j, i) <==> Streak(a, asked, j, i));
  }

  lemma AskedExtends(a: seq<Attempt>, asked: set<nat>, p: Policy, n: nat, ask: bool)
    requires n < |a| && AskedRightly(a, asked, p, n)
    requires ask <==> p.onPoison && Counts(a, n) && Poisonous(a, asked, p, n)
    ensures AskedRightly(a, if ask then asked + {n} else asked, p, n + 1)
  {
    hide Poisonous;
    var asked' := if ask then asked + {n} else asked;
    forall i: nat | i <= n
      ensures i in asked' <==> p.onPoison && Counts(a, i) && Poisonous(a, asked', p, i)
    {
      PoisonousLooksBack(a, asked, p, n, i);
    }
  }

  lemma StallExtends(a: seq<Attempt>, asked: set<nat>, asked': set<nat>, p: Policy, stall: Option<nat>, n: nat)
    requires n < |a| && StallIsFirst(a, asked, p, stall, n) && (asked' == asked || asked' == asked + {n})
    ensures StallIsFirst(a, asked', p, stall, n)
    ensures StallIsFirst(a, asked', p, if stall.None? && Stalls(a, asked', p, n) then Some(n) else stall, n + 1)
  {
    assert forall k: nat :: k < n ==> (Stalls(a, asked', p, k) <==> Stalls(a, asked, p, k));
  }

  lemma PendingIsKnown(a: seq<Attempt>, asked: set<nat>, p: Policy, n: nat, len: nat, start: Option<int>)
    requires n < |a| && StreakIs(a, asked, n + 1, len, start) && forall k: nat :: k in asked ==> k <= n
    ensures VerdictPending(a, asked, p, n) <==> p.onPoison && len > 0 && asked == {}
  {
    if asked != {} {
      var k := AnyOf(asked);
      assert 0 <= k <= n;
    }
  }

  lemma StreakExtends(a: seq<Attempt>, asked: set<nat>, n: nat, len: nat, start: Option<int>, ask: bool)
    requires n < |a| && Failed(a, n) && StreakIs(a, asked, n, len, start) && forall i: nat :: i in asked ==> i < n
    ensures var asked' := if ask then asked + {n} else asked;
            if ask || !Counts(a, n) then StreakIs(a, asked', n + 1, 0, Option.None)
            else StreakIs(a, asked', n + 1, len + 1, if start.None? then Some(a[n].at) else start)
  {
    assert n + 1 - (len + 1) == n - len;
  }

  lemma WentOnExtends(a: seq<Attempt>, asked: set<nat>, n: nat, ask: bool)
    requires n < |a| && WentOn(a, asked, n) && forall i: nat :: i in asked ==> i < n
    ensures var asked' := if ask then asked + {n} else asked;
            && WentOn(a, asked', n)
            && (Failed(a, n) && (ask ==> a[n].veto) && !a[n].stop ==> WentOn(a, asked', n + 1))
  {}

  lemma SustainedExtends(a: seq<Attempt>, p: Policy, sustained: Option<nat>, n: nat)
    requires n < |a| && SustainedIsFirst(a, p, sustained, n)
    ensures SustainedIsFirst(a, p,
              if sustained.None? && a[n].at - a[0].at >= p.sustainedUs then Some(n) else sustained, n + 1)
  {}

  lemma NothingYet(a: seq<Attempt>, p: Policy)
    ensures AskedRightly(a, {}, p, 0) && StallIsFirst(a, {}, p, Option.None, 0)
    ensures WentOn(a, {}, 0) && SustainedIsFirst(a, p, Option.None, 0) && StreakIs(a, {}, 0, 0, Option.None)
  {}

  lemma StallsIs(a: seq<Attempt>, asked: set<nat>, p: Policy, i: nat)
    requires i < |a|
    ensures Stalls(a, asked, p, i) <==> i + 1 >= p.stallThreshold && !VerdictPending(a, asked, p, i)
  {}

  lemma AskedIsPast(a: seq<Attempt>, asked: set<nat>, p: Policy, n: nat)
    requires n <= |a| && AskedRightly(a, asked, p, n)
    ensures forall i: nat :: i in asked ==> i < n
  {}

  /** retry_until_success's wrapper. */
  method Retry(a: seq<Attempt>, p: Policy) returns (c: Call)
    requires Monotonic(a)
    ensures Follows(a, p, c)
  {
    hide Poisonous, AskedRightly, StallIsFirst, SustainedIsFirst, Stalls, VerdictPending, IsTransient;
    hide StreakIs, WentOn, Monotonic;
    var attempts, poisonAttempts := 0, 0;
    var firstFailTs: Option<int>, firstPoisonTs: Option<int> := Option.None, Option.None;
    var asked: set<nat> := {};
    var stall: Option<nat>, sustained: Option<nat> := Option.None, Option.None;
    var vetoed := false;
    NothingYet(a, p);
    while attempts < |a|
      invariant attempts <= |a|
      invariant AskedRightly(a, asked, p, attempts) && WentOn(a, asked, attempts)
      invariant StreakIs(a, asked, attempts, poisonAttempts, firstPoisonTs)
      invariant StallIsFirst(a, asked, p, stall, attempts) && SustainedIsFirst(a, p, sustained, attempts)
      invariant vetoed <==> asked != {}
      invariant firstFailTs == if attempts == 0 then Option.None else Some(a[0].at)
    {
      var i := attempts;
      AskedIsPast(a, asked, p, i);
      if a[i].failure.None? {
        AskedExtends(a, asked, p, i, false);
        return Call(i + 1, asked, stall, sustained, stall.Some?, Succeeded);
      }
      if Counts(a, i) { CountersDecide(a, asked, p, i, poisonAttempts, firstPoisonTs); }
      attempts := attempts + 1;
      ghost var len, start := poisonAttempts, firstPoisonTs;
      if IsTransient(a[i].failure.value) {
        poisonAttempts, firstPoisonTs := 0, Option.None;
      } else {
        poisonAttempts := poisonAttempts + 1;
        if firstPoisonTs.None? { firstPoisonTs := Some(a[i].at); }
      }
      if firstFailTs.None? { firstFailTs := Some(a[i].at); }
      var ask := p.onPoison && poisonAttempts >= p.maxAttempts
              && firstPoisonTs.Some? && a[i].at - firstPoisonTs.value >= p.minUs;
      AskedExtends(a, asked, p, i, ask);
      StallExtends(a, asked, if ask then asked + {i} else asked, p, stall, i);
      StreakExtends(a, asked, i, len, start, ask);
      WentOnExtends(a, asked, i, ask);
      SustainedExtends(a, p, sustained, i);
      if ask {
        asked := asked + {i};
        if a[i].veto {
          vetoed, poisonAttempts, firstPoisonTs := true, 0, Option.None;
        } else {
          return Call(attempts, asked, stall, sustained, stall.Some?, GaveUp);
        }
      }
      AskedIsPast(a, asked, p, attempts);
      PendingIsKnown(a, asked, p, i, poisonAttempts, firstPoisonTs);
      StallsIs(a, asked, p, i);
      var poisonPending := p.onPoison && poisonAttempts > 0 && !vetoed;
      if stall.None? && !poisonPending && attempts >= p.stallThreshold { stall := Some(i); }
      if sustained.None? && a[i].at - firstFailTs.value >= p.sustainedUs { sustained := Some(i); }
      if a[i].stop {
        return Call(attempts, asked, stall, sustained, false, Interrupted);
      }
    }
    c := Call(attempts, asked, stall, sustained, false, Retrying);
  }
}
