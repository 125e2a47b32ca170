/**
 * Ascending order on sequences of reals: Python's `sorted(...)` / `np.sort(...)` as a function,
 * and `np.diff` of a sorted sequence.
 */
module Sorting {

  predicate Sorted(s: seq<real>) {
    forall i, j :: 0 <= i < j < |s| ==> s[i] <= s[j]
  }

  predicate StrictlySorted(s: seq<real>) {
    forall i, j :: 0 <= i < j < |s| ==> s[i] < s[j]
  }

  predicate Distinct(s: seq<real>) {
    forall i, j :: 0 <= i < j < |s| ==> s[i] != s[j]
  }

  /** Puts `x` in front of the first element of the sorted `s` that is not smaller. */
  function Insert(x: real, s: seq<real>): (r: seq<real>)
    requires Sorted(s)
    ensures Sorted(r) && multiset(r) == multiset(s) + multiset{x}
    ensures forall y :: y in r <==> y == x || y in s
  {
    if s == [] || x <= s[0] then
      SortedCons(x, s);
      [x] + s
    else
      var rest := Insert(x, s[1..]);
      assert s == [s[0]] + s[1..];
      assert forall k :: 0 <= k < |rest| ==> s[0] <= rest[k] by {
        forall k | 0 <= k < |rest| ensures s[0] <= rest[k] {
          assert rest[k] in rest;
        }
      }
      SortedCons(s[0], rest);
      [s[0]] + rest
  }

  lemma SortedCons(a: real, t: seq<real>)
    requires Sorted(t) && forall k :: 0 <= k < |t| ==> a <= t[k]
    ensures Sorted([a] + t)
  {
    var r := [a] + t;
    forall i, j | 0 <= i < j < |r| ensures r[i] <= r[j] {
      if i > 0 {
        assert r[i] == t[i - 1] && r[j] == t[j - 1];
      }
    }
  }

  lemma StrictlySortedCons(a: real, t: seq<real>)
    requires StrictlySorted(t) && forall k :: 0 <= k < |t| ==> a < t[k]
    ensures StrictlySorted([a] + t)
  {
    var r := [a] + t;
    forall i, j | 0 <= i < j < |r| ensures r[i] < r[j] {
      if i > 0 {
        assert r[i] == t[i - 1] && r[j] == t[j - 1];
      }
    }
  }

  /** `sorted(s)`: the elements of `s` in ascending order. */
  function Sort(s: seq<real>): (r: seq<real>)
    ensures Sorted(r) && multiset(r) == multiset(s) && |r| == |s|
  {
    if s == [] then []
    else
      assert s == [s[0]] + s[1..];
      Insert(s[0], Sort(s[1..]))
  }

  lemma {:induction false} InsertStrict(x: real, s: seq<real>)
    requires StrictlySorted(s) && x !in s
    ensures StrictlySorted(Insert(x, s))
  {
    if s == [] || x <= s[0] {
      assert s != [] ==> x != s[0];
      StrictlySortedCons(x, s);
    } else {
      assert s == [s[0]] + s[1..];
      assert x !in s[1..];
      InsertStrict(x, s[1..]);
      var rest := Insert(x, s[1..]);
      forall k | 0 <= k < |rest| ensures s[0] < rest[k] {
        assert rest[k] in rest;
      }
      StrictlySortedCons(s[0], rest);
    }
  }

  /** Sorting a sequence without repetitions gives a strictly increasing sequence. */
  lemma {:induction false} SortDistinct(s: seq<real>)
    requires Distinct(s)
    ensures StrictlySorted(Sort(s))
  {
    if s != [] {
      SortDistinct(s[1..]);
      var t := Sort(s[1..]);
      assert s[0] !in multiset(s[1..]);
      assert s[0] !in multiset(t);
      InsertStrict(s[0], t);
    }
  }

  /** A strictly increasing sequence is determined by the elements it holds. */
  lemma {:induction false} StrictlySortedUnique(a: seq<real>, b: seq<real>)
    requires StrictlySorted(a) && StrictlySorted(b)
    requires forall x :: x in a <==> x in b
    ensures a == b
  {
    if a != [] { assert a[0] in a; assert a[0] in b; }
    if b != [] { assert b[0] in b; assert b[0] in a; }
    if a != [] && b != [] {
      assert a[0] == b[0];
      forall x ensures x in a[1..] <==> x in b[1..] {
        if x in a[1..] {
          var i :| 1 <= i < |a| && a[i] == x;
          assert x in b && x != b[0];
        }
        if x in b[1..] {
          var i :| 1 <= i < |b| && b[i] == x;
          assert x in a && x != a[0];
        }
      }
      StrictlySortedUnique(a[1..], b[1..]);
      assert a == [a[0]] + a[1..] && b == [b[0]] + b[1..];
    }
  }

  /** `np.diff(s)`: the differences between consecutive elements. */
  function Diffs(s: seq<real>): (d: seq<real>)
    ensures |d| == if |s| < 2 then 0 else |s| - 1
    ensures forall i :: 0 <= i < |d| ==> d[i] == s[i + 1] - s[i]
    ensures StrictlySorted(s) ==> forall i :: 0 <= i < |d| ==> d[i] > 0.0
  {
    if |s| < 2 then [] else Diffs(s[..|s| - 1]) + [s[|s| - 1] - s[|s| - 2]]
  }
}
