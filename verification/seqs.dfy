/** The two list idioms the inventory relies on: a list comprehension that keeps
    the entries a predicate rejects, and a linear scan that stops at the first hit. */
module Seqs {
  import opened Wrappers

  /** `a` is obtained from `b` by deleting entries: same elements, same relative order.
      Greedy matching of `a`'s head against `b` is complete for subsequences. */
  predicate IsSubsequence<T(==)>(a: seq<T>, b: seq<T>)
    decreases |b|
  {
    if |a| == 0 then true
    else if |b| == 0 then false
    else if a[0] == b[0] then IsSubsequence(a[1..], b[1..])
    else IsSubsequence(a, b[1..])
  }

  /** `[x for x in xs if not drop(x)]`. */
  function RemoveWhere<T(==,!new)>(xs: seq<T>, drop: T -> bool): (r: seq<T>)
    ensures |r| <= |xs|
    ensures forall i :: 0 <= i < |r| ==> r[i] in xs && !drop(r[i])
    ensures forall x {:trigger x in r} :: x in r <==> x in xs && !drop(x)
    ensures forall x {:trigger multiset(r)[x]} :: multiset(r)[x] == if drop(x) then 0 else multiset(xs)[x]
    ensures IsSubsequence(r, xs)
  {
    if |xs| == 0 then []
    else
      var rest := RemoveWhere(xs[1..], drop);
      assert xs == [xs[0]] + xs[1..];
      if drop(xs[0]) then
        assert |rest| > 0 ==> rest[0] != xs[0];
        rest
      else
        var r := [xs[0]] + rest;
        assert r[1..] == rest;
        r
  }

  /** Position of the first entry satisfying `hit`, scanning from the front. */
  function FirstWhere<T>(xs: seq<T>, hit: T -> bool): (r: Option<nat>)
    ensures r.Some? ==> r.value < |xs| && hit(xs[r.value])
    ensures r.Some? ==> forall j :: 0 <= j < r.value ==> !hit(xs[j])
    ensures r.None? <==> forall j :: 0 <= j < |xs| ==> !hit(xs[j])
  {
    if |xs| == 0 then None
    else if hit(xs[0]) then Some(0)
    else
      match FirstWhere(xs[1..], hit)
      case None => None
      case Some(i) => Some(i + 1)
  }

  /** Filtering distributes over concatenation: each part is filtered on its own. */
  lemma {:induction false} RemoveWhereConcat<T(!new)>(a: seq<T>, b: seq<T>, drop: T -> bool)
    ensures RemoveWhere(a + b, drop) == RemoveWhere(a, drop) + RemoveWhere(b, drop)
  {
    if |a| == 0 {
      assert a + b == b;
    } else {
      assert (a + b)[1..] == a[1..] + b;
      RemoveWhereConcat(a[1..], b, drop);
    }
  }

  /** An appended entry that is dropped leaves no trace. */
  lemma RemoveWhereDropLast<T(!new)>(xs: seq<T>, x: T, drop: T -> bool)
    requires drop(x)
    ensures RemoveWhere(xs + [x], drop) == RemoveWhere(xs, drop)
  {
    RemoveWhereConcat(xs, [x], drop);
  }

  /** A list with no entry to drop is left as it is. */
  lemma {:induction false} RemoveWhereNothing<T(!new)>(xs: seq<T>, drop: T -> bool)
    requires forall i :: 0 <= i < |xs| ==> !drop(xs[i])
    ensures RemoveWhere(xs, drop) == xs
  {
    if |xs| > 0 {
      RemoveWhereNothing(xs[1..], drop);
      assert xs == [xs[0]] + xs[1..];
    }
  }

  /** Removing twice removes nothing more. */
  lemma RemoveWhereIdempotent<T(!new)>(xs: seq<T>, drop: T -> bool)
    ensures RemoveWhere(RemoveWhere(xs, drop), drop) == RemoveWhere(xs, drop)
  {
    RemoveWhereNothing(RemoveWhere(xs, drop), drop);
  }

  /** Two predicates that agree on every entry filter alike. */
  lemma {:induction false} RemoveWhereAgree<T(!new)>(xs: seq<T>, d1: T -> bool, d2: T -> bool)
    requires forall i :: 0 <= i < |xs| ==> d1(xs[i]) == d2(xs[i])
    ensures RemoveWhere(xs, d1) == RemoveWhere(xs, d2)
  {
    if |xs| > 0 {
      RemoveWhereAgree(xs[1..], d1, d2);
    }
  }
}
