/**
 * The array operations the portal uses (`filter`, `find`, `indexOf`,
 * `[...new Set(xs)]`), each stated against an independent characterisation
 * of its result, and the first-match search that `find` and `indexOf`
 * share.
 */
module Lists {
  import opened Wrappers

  /** `a` is obtained from `b` by deleting elements: `b`'s order is kept. */
  ghost predicate IsSubsequence<T>(a: seq<T>, b: seq<T>)
  {
    a == [] || (b != [] && ((a[0] == b[0] && IsSubsequence(a[1..], b[1..])) || IsSubsequence(a, b[1..])))
  }

  /** No element occurs twice. */
  ghost predicate Distinct<T>(s: seq<T>)
  {
    forall i, j :: 0 <= i < j < |s| ==> s[i] != s[j]
  }

  /** `Array.prototype.filter`: the elements satisfying `p`, in their original order. */
  function Filter<T(!new)>(p: T -> bool, s: seq<T>): (r: seq<T>)
    ensures |r| <= |s|
    ensures |r| == |s| <==> forall x :: x in s ==> p(x)
    ensures IsSubsequence(r, s)
    ensures forall x :: x in r <==> x in s && p(x)
    ensures forall x :: multiset(r)[x] == if p(x) then multiset(s)[x] else 0
  {
    if s == [] then []
    else
      assert s == [s[0]] + s[1..];
      if p(s[0]) then
        var rest := Filter(p, s[1..]);
        assert ([s[0]] + rest)[1..] == rest;
        [s[0]] + rest
      else Filter(p, s[1..])
  }

  /** A filter whose predicate holds of every element returns its input. */
  lemma {:induction false} FilterKeepsAll<T(!new)>(p: T -> bool, s: seq<T>)
    requires forall x :: x in s ==> p(x)
    ensures Filter(p, s) == s
  {
    if s != [] {
      var rest := s[1..];
      forall x | x in rest
        ensures p(x)
      {
        assert x in s;
      }
      FilterKeepsAll(p, rest);
      assert p(s[0]);
      assert s == [s[0]] + rest;
    }
  }

  /** The first position satisfying `p`, or -1: the search behind `find` and `indexOf`. */
  function FindIndex<T>(p: T -> bool, s: seq<T>): (i: int)
    ensures -1 <= i < |s|
    ensures i == -1 <==> forall k :: 0 <= k < |s| ==> !p(s[k])
    ensures 0 <= i ==> p(s[i]) && forall k :: 0 <= k < i ==> !p(s[k])
  {
    if s == [] then -1
    else if p(s[0]) then 0
    else
      var j := FindIndex(p, s[1..]);
      if j == -1 then -1 else j + 1
  }

  /** `Array.prototype.find`: the first element satisfying `p`, or undefined. */
  function Find<T>(p: T -> bool, s: seq<T>): (r: Option<T>)
    ensures r.None? <==> forall x :: x in s ==> !p(x)
    ensures r.Some? ==> exists i :: 0 <= i < |s| && s[i] == r.value && p(s[i]) && forall k :: 0 <= k < i ==> !p(s[k])
  {
    var i := FindIndex(p, s);
    if i < 0 then None else Some(s[i])
  }

  /** When exactly one element satisfies `p`, `find` returns it. */
  lemma FindTheOnly<T>(p: T -> bool, s: seq<T>, x: T)
    requires x in s && p(x)
    requires forall y :: y in s && p(y) ==> y == x
    ensures Find(p, s) == Some(x)
  {
  }

  /** `Array.prototype.indexOf`: the first position holding `x`, or -1. */
  function IndexOf<T(==)>(s: seq<T>, x: T): (i: int)
    ensures -1 <= i < |s|
    ensures i == -1 <==> x !in s
    ensures 0 <= i ==> s[i] == x && x !in s[..i]
  {
    FindIndex(y => y == x, s)
  }

  /** In a list without repeats, `x` lies at or after position `k` exactly when `indexOf(x) >= k`. */
  lemma {:induction false} IndexOfAtOrAfter<T>(s: seq<T>, x: T, k: nat)
    requires Distinct(s) && k <= |s|
    ensures k <= IndexOf(s, x) <==> x in s[k..]
  {
    var i := IndexOf(s, x);
    if k <= i {
      assert s[k..][i - k] == x;
    }
    if x in s[k..] {
      var j :| 0 <= j < |s[k..]| && s[k..][j] == x;
      assert s[k + j] == x;
    }
  }

  /** `[...new Set(s)]`: every element of `s` once. */
  function Dedup<T(==,!new)>(s: seq<T>): (r: seq<T>)
    ensures Distinct(r)
    ensures forall x :: x in r <==> x in s
    decreases |s|
  {
    if s == [] then []
    else
      var last := s[|s| - 1];
      var d := Dedup(s[..|s| - 1]);
      assert s == s[..|s| - 1] + [last];
      if last in d then d else d + [last]
  }
}
