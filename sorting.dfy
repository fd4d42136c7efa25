/** The query-set operations the views chain together, on sequences: a
    WHERE clause (`Filter`), ORDER BY (`SortBy`, a stable sort under a
    total preorder) and a LIMIT (`Take`, Python's `qs[:k]`). */
module Sorting {

  ghost predicate TotalPreorder<T(!new)>(le: (T, T) -> bool) {
    && (forall a, b :: le(a, b) || le(b, a))
    && (forall a, b, c :: le(a, b) && le(b, c) ==> le(a, c))
  }

  ghost predicate SortedBy<T>(s: seq<T>, le: (T, T) -> bool) {
    forall i, j :: 0 <= i < j < |s| ==> le(s[i], s[j])
  }

  /** `le(b, x)` for every element `x` of `s`. */
  ghost predicate AllAfter<T>(b: T, s: seq<T>, le: (T, T) -> bool) {
    forall i :: 0 <= i < |s| ==> le(b, s[i])
  }

  /** `qs.filter(keep)`: each record is kept, with its multiplicity, exactly when it satisfies `keep`. */
  function Filter<T(!new)>(s: seq<T>, keep: T -> bool): (r: seq<T>)
    ensures forall x :: multiset(r)[x] == if keep(x) then multiset(s)[x] else 0
    ensures forall i :: 0 <= i < |r| ==> keep(r[i])
    ensures |r| <= |s|
  {
    if s == [] then []
    else
      var rest := Filter(s[1..], keep);
      assert s == [s[0]] + s[1..];
      if keep(s[0]) then [s[0]] + rest else rest
  }

  function Insert<T>(x: T, s: seq<T>, le: (T, T) -> bool): (r: seq<T>)
    ensures multiset(r) == multiset(s) + multiset{x}
  {
    if s == [] || le(x, s[0]) then [x] + s
    else
      assert s == [s[0]] + s[1..];
      [s[0]] + Insert(x, s[1..], le)
  }

  /** `qs.order_by(...)` under the ordering `le`: a permutation of `s`. */
  function SortBy<T>(s: seq<T>, le: (T, T) -> bool): (r: seq<T>)
    ensures multiset(r) == multiset(s)
  {
    if s == [] then []
    else
      assert s == [s[0]] + s[1..];
      Insert(s[0], SortBy(s[1..], le), le)
  }

  /** `qs[:k]`: the first `min(k, |s|)` records. */
  function Take<T>(s: seq<T>, k: nat): (r: seq<T>)
    ensures |r| == if |s| < k then |s| else k
    ensures r == s[..|r|]
    ensures multiset(r) <= multiset(s)
  {
    if |s| <= k then s
    else
      assert s == s[..k] + s[k..];
      s[..k]
  }

  lemma {:induction false} InsertAllAfter<T>(b: T, x: T, s: seq<T>, le: (T, T) -> bool)
    requires AllAfter(b, s, le) && le(b, x)
    ensures AllAfter(b, Insert(x, s, le), le)
  {
    if s == [] || le(x, s[0]) {
    } else {
      InsertAllAfter(b, x, s[1..], le);
    }
  }

  lemma {:induction false} InsertSorted<T(!new)>(x: T, s: seq<T>, le: (T, T) -> bool)
    requires TotalPreorder(le) && SortedBy(s, le)
    ensures SortedBy(Insert(x, s, le), le)
  {
    if s == [] {
    } else if le(x, s[0]) {
      var r := [x] + s;
      forall i, j | 0 <= i < j < |r| ensures le(r[i], r[j]) {
        if i == 0 && j > 1 {
          assert le(s[0], s[j - 1]);
        }
      }
    } else {
      var tail := s[1..];
      InsertSorted(x, tail, le);
      assert AllAfter(s[0], tail, le);
      InsertAllAfter(s[0], x, tail, le);
      var r := Insert(x, s, le);
      assert r == [s[0]] + Insert(x, tail, le);
    }
  }

  /** The result of `SortBy` is in order under `le`. */
  lemma {:induction false} SortBySorted<T(!new)>(s: seq<T>, le: (T, T) -> bool)
    requires TotalPreorder(le)
    ensures SortedBy(SortBy(s, le), le)
  {
    if s != [] {
      SortBySorted(s[1..], le);
      InsertSorted(s[0], SortBy(s[1..], le), le);
    }
  }

  /** Top-k: when `s` is sorted, a value of which `s[..k]` keeps fewer
      copies than `s` holds comes no earlier than any value it keeps, and
      `s[..k]` only leaves copies out once it is full. */
  lemma TakeTopK<T(!new)>(s: seq<T>, k: nat, x: T, le: (T, T) -> bool)
    requires SortedBy(s, le)
    requires multiset(Take(s, k))[x] < multiset(s)[x]
    ensures |Take(s, k)| == k
    ensures forall i :: 0 <= i < k ==> le(Take(s, k)[i], x)
  {
    assert |s| > k;
    assert s == s[..k] + s[k..];
    assert multiset(s) == multiset(s[..k]) + multiset(s[k..]);
    assert x in multiset(s[k..]);
    var j :| k <= j < |s| && s[j] == x by {
      var j' :| 0 <= j' < |s[k..]| && s[k..][j'] == x;
      assert s[k + j'] == x;
    }
  }

  /** The first element of a sorted sequence comes no later than any element of it. */
  lemma SortedFirstLeast<T(!new)>(s: seq<T>, le: (T, T) -> bool)
    requires TotalPreorder(le) && SortedBy(s, le)
    ensures s != [] ==> forall x :: x in s ==> le(s[0], x)
  {
    forall x | x in s ensures le(s[0], x) {
      var i :| 0 <= i < |s| && s[i] == x;
      if i == 0 {
        Reflexive(le, x);
      }
    }
  }

  /** A total relation relates every value to itself. */
  lemma Reflexive<T(!new)>(le: (T, T) -> bool, x: T)
    requires TotalPreorder(le)
    ensures le(x, x)
  {
    // totality instantiated at a == b == x
    assert le(x, x) || le(x, x);
  }

  /** `qs.filter(keep).order_by(le)`: exactly the records of `s` that
      satisfy `keep`, each as often as in `s`, in order under `le`. */
  function Select<T(!new)>(s: seq<T>, keep: T -> bool, le: (T, T) -> bool): (r: seq<T>)
    requires TotalPreorder(le)
    ensures forall x :: multiset(r)[x] == if keep(x) then multiset(s)[x] else 0
    ensures forall x :: x in r <==> x in s && keep(x)
    ensures SortedBy(r, le)
  {
    var kept := Filter(s, keep);
    SortBySorted(kept, le);
    SortBy(kept, le)
  }

  /** `qs.filter(keep).order_by(le)[:k]`: at most `k` records of `s` that
      satisfy `keep`, none shown more often than it is stored, in order; a
      copy of a record that qualifies is left out only when `k` are shown,
      none of them coming after it. */
  function TopK<T(!new)>(s: seq<T>, keep: T -> bool, le: (T, T) -> bool, k: nat): (r: seq<T>)
    requires TotalPreorder(le)
    ensures |r| <= k
    ensures forall x :: multiset(r)[x] <= if keep(x) then multiset(s)[x] else 0
    ensures forall i :: 0 <= i < |r| ==> r[i] in s && keep(r[i])
    ensures SortedBy(r, le)
    ensures forall x :: keep(x) && multiset(r)[x] < multiset(s)[x] ==> |r| == k && forall i :: 0 <= i < |r| ==> le(r[i], x)
  {
    var c := Select(s, keep, le);
    TopKFacts(s, keep, le, k, c);
    Take(c, k)
  }

  lemma TopKFacts<T(!new)>(s: seq<T>, keep: T -> bool, le: (T, T) -> bool, k: nat, c: seq<T>)
    requires forall x :: x in c <==> x in s && keep(x)
    requires forall x :: multiset(c)[x] == if keep(x) then multiset(s)[x] else 0
    requires SortedBy(c, le)
    ensures forall i :: 0 <= i < |Take(c, k)| ==> Take(c, k)[i] in s && keep(Take(c, k)[i])
    ensures SortedBy(Take(c, k), le)
    ensures forall x :: keep(x) && multiset(Take(c, k))[x] < multiset(s)[x] ==>
      |Take(c, k)| == k && forall i :: 0 <= i < k ==> le(Take(c, k)[i], x)
  {
    var r := Take(c, k);
    forall i | 0 <= i < |r| ensures r[i] in s && keep(r[i]) {
      assert r[i] == c[i] && c[i] in c;
    }
    forall x | keep(x) && multiset(r)[x] < multiset(s)[x]
      ensures |r| == k && forall i :: 0 <= i < k ==> le(r[i], x)
    {
      TakeTopK(c, k, x, le);
    }
  }
}
