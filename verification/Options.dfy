/** A value that may be absent: SQL NULL, or Python None. */
module Options {
  datatype Option<+T> = None | Some(value: T)

  function Min(a: int, b: int): int { if a <= b then a else b }

  function Max(a: int, b: int): int { if a <= b then b else a }

  ghost function AnyOf<T>(ts: set<T>): (t: T)
    requires ts != {}
    ensures t in ts
  {
    var t :| t in ts;
    t
  }

  /** A finite nonempty set has a least element under any strict total order. */
  lemma {:induction false} Minimum<T>(ts: set<T>, less: (T, T) -> bool) returns (m: T)
    requires ts != {}
    requires forall a, b :: a in ts && b in ts ==> a == b || less(a, b) || less(b, a)
    requires forall a, b, c :: a in ts && b in ts && c in ts && less(a, b) && less(b, c) ==> less(a, c)
    ensures m in ts && forall k :: k in ts && k != m ==> less(m, k)
    decreases |ts|
  {
    m := AnyOf(ts);
    var rest := ts - {m};
    assert forall k :: k in ts ==> k == m || k in rest;
    if rest != {} {
      var k := Minimum(rest, less);
      m := if less(m, k) then m else k;
    }
  }

  function Least(ts: set<int>): (m: int)
    requires ts != {}
    ensures m in ts && forall t :: t in ts ==> m <= t
  {
    LeastExists(ts);
    var m :| m in ts && forall t :: t in ts ==> m <= t;
    m
  }

  lemma LeastExists(ts: set<int>)
    requires ts != {}
    ensures exists m :: m in ts && forall t :: t in ts ==> m <= t
  {
    var less := (a: int, b: int) => a < b;
    var m := Minimum(ts, less);
    assert forall t :: t in ts && t != m ==> less(m, t);
  }

  lemma {:induction false} SmallerSet<T>(a: set<T>, b: set<T>)
    requires a <= b
    ensures |a| <= |b|
    decreases |a|
  {
    if a != {} {
      var x := AnyOf(a);
      SmallerSet(a - {x}, b - {x});
    }
  }
}
