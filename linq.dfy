/**
 * The LINQ operators the claim store uses, on finite sequences:
 * `Where`, `FirstOrDefault` (as the index of the first match) and
 * `OrderBy` (for `OrderByDescending`, order by the negated key).
 */
module Linq {
  import opened Wrappers

  /** `Where`: the elements of `s` that satisfy `p`, in their original order. */
  function Where<T(!new)>(s: seq<T>, p: T -> bool): (r: seq<T>)
    ensures |r| <= |s|
    ensures forall i :: 0 <= i < |r| ==> p(r[i])
  {
    if s == [] then [] else (if p(s[0]) then [s[0]] else []) + Where(s[1..], p)
  }

  /** `Where` keeps every occurrence of a value that satisfies `p` and drops every other one. */
  lemma {:induction false} WhereCount<T(!new)>(s: seq<T>, p: T -> bool, x: T)
    ensures multiset(Where(s, p))[x] == if p(x) then multiset(s)[x] else 0
  {
    if s != [] {
      assert s == [s[0]] + s[1..];
      WhereCount(s[1..], p, x);
    }
  }

  /** Filtering an extended sequence extends the filtered one: `Where` keeps the order. */
  lemma {:induction false} WhereAppend<T(!new)>(s: seq<T>, x: T, p: T -> bool)
    ensures Where(s + [x], p) == Where(s, p) + (if p(x) then [x] else [])
  {
    if s != [] {
      assert (s + [x])[1..] == s[1..] + [x];
      WhereAppend(s[1..], x, p);
    }
  }

  /** `FirstOrDefault` as a position: the index of the first element satisfying `p`. */
  function FirstIndex<T>(s: seq<T>, p: T -> bool): (r: Option<nat>)
    ensures r.Some? ==> r.value < |s| && p(s[r.value]) && forall j :: 0 <= j < r.value ==> !p(s[j])
    ensures r.None? ==> forall j :: 0 <= j < |s| ==> !p(s[j])
  {
    if s == [] then None
    else if p(s[0]) then Some(0)
    else match FirstIndex(s[1..], p)
      case None => None
      case Some(k) => Some(k + 1)
  }

  /** `s` is in ascending order of `key`. */
  predicate SortedBy<T>(s: seq<T>, key: T -> int)
  {
    forall i, j :: 0 <= i < j < |s| ==> key(s[i]) <= key(s[j])
  }

  /** A lower bound on the keys of `s` and of `x` bounds every element of `s` with `x` added. */
  lemma LowerBoundOfAdded<T>(s: seq<T>, x: T, r: seq<T>, bound: int, key: T -> int)
    requires multiset(r) == multiset(s) + multiset{x}
    requires bound <= key(x) && forall i :: 0 <= i < |s| ==> bound <= key(s[i])
    ensures forall i :: 0 <= i < |r| ==> bound <= key(r[i])
  {
    forall i | 0 <= i < |r| ensures bound <= key(r[i]) {
      assert r[i] in multiset(s) + multiset{x};
      if r[i] != x {
        assert r[i] in s;
      }
    }
  }

  /** Inserts `x` into the sorted `s` before the first element whose key is not smaller. */
  function InsertBy<T>(x: T, s: seq<T>, key: T -> int): (r: seq<T>)
    requires SortedBy(s, key)
    ensures SortedBy(r, key)
    ensures multiset(r) == multiset(s) + multiset{x}
  {
    if s == [] then [x]
    else if key(x) <= key(s[0]) then [x] + s
    else
      assert s == [s[0]] + s[1..];
      var rest := InsertBy(x, s[1..], key);
      LowerBoundOfAdded(s[1..], x, rest, key(s[0]), key);
      [s[0]] + rest
  }

  /** `OrderBy(key)`: a permutation of `s` in ascending order of `key`. */
  function SortBy<T>(s: seq<T>, key: T -> int): (r: seq<T>)
    ensures SortedBy(r, key)
    ensures multiset(r) == multiset(s)
  {
    if s == [] then []
    else
      assert s == [s[0]] + s[1..];
      InsertBy(s[0], SortBy(s[1..], key), key)
  }
}
