/** Sequence helpers: the boolean-mask row selection that pandas performs with `df[mask]`. */
module Seqs {

  /** True when no value occurs twice in `s`. */
  predicate Distinct<T(==,!new)>(s: seq<T>) {
    forall i, j :: 0 <= i < j < |s| ==> s[i] != s[j]
  }

  /** The elements of `s` that satisfy `keep`. */
  function Filter<T(==,!new)>(s: seq<T>, keep: T -> bool): (r: seq<T>)
    ensures |r| <= |s|
    ensures |r| == |s| <==> forall i :: 0 <= i < |s| ==> keep(s[i])
    ensures forall x :: x in r <==> x in s && keep(x)
    ensures (forall i :: 0 <= i < |s| ==> keep(s[i])) ==> r == s
    ensures (forall i :: 0 <= i < |s| ==> !keep(s[i])) ==> r == []
  {
    if |s| == 0 then []
    else
      var rest := Filter(s[1..], keep);
      assert s == [s[0]] + s[1..];
      if keep(s[0]) then [s[0]] + rest else rest
  }

  /** The mask keeps every selected value exactly as often as it occurs and
      drops every other value entirely. */
  lemma {:induction false} FilterCounts<T(!new)>(s: seq<T>, keep: T -> bool)
    ensures forall x :: multiset(Filter(s, keep))[x] == if keep(x) then multiset(s)[x] else 0
  {
    if |s| > 0 {
      FilterCounts(s[1..], keep);
      assert s == [s[0]] + s[1..];
    }
  }

  /** Masks that agree on every element select the same rows. */
  lemma {:induction false} FilterCongruent<T(!new)>(s: seq<T>, p: T -> bool, q: T -> bool)
    requires forall i :: 0 <= i < |s| ==> p(s[i]) == q(s[i])
    ensures Filter(s, p) == Filter(s, q)
  {
    if |s| > 0 {
      FilterCongruent(s[1..], p, q);
    }
  }

  /** `le` is a total preorder: any two values compare, and comparison chains. */
  ghost predicate TotalOrder<T(!new)>(le: (T, T) -> bool) {
    && (forall a, b :: le(a, b) || le(b, a))
    && (forall a, b, c :: le(a, b) && le(b, c) ==> le(a, c))
  }

  /** Smallest and largest element of a non-empty sequence under `le`: the
      `min()` and `max()` of a column. Both are attained. The enclosing bound
      is stated twice, by index for callers that read a column position by
      position and by membership for callers that only know an element. */
  function Bounds<T(==,!new)>(s: seq<T>, le: (T, T) -> bool): (b: (T, T))
    requires |s| > 0
    requires TotalOrder(le)
    ensures b.0 in s && b.1 in s
    ensures forall i :: 0 <= i < |s| ==> le(b.0, s[i]) && le(s[i], b.1)
    ensures forall x :: x in s ==> le(b.0, x) && le(x, b.1)
  {
    if |s| == 1 then (s[0], s[0])
    else
      var b := Bounds(s[1..], le);
      assert forall i :: 1 <= i < |s| ==> s[i] == s[1..][i - 1];
      (if le(s[0], b.0) then s[0] else b.0, if le(b.1, s[0]) then s[0] else b.1)
  }

  /** The order of integer columns. */
  predicate IntLe(a: int, b: int) { a <= b }

  /** The order of real-valued columns. */
  predicate RealLe(a: real, b: real) { a <= b }
}
