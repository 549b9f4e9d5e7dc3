/** Index selection over sequences: the positions, in order, that satisfy a predicate. */
module Sequences {
  import opened Wrappers

  /** The positions below `n` that satisfy `keep`, in increasing order (a LINQ `Where` over positions). */
  function Where(n: nat, keep: nat -> bool): seq<nat>
  {
    if n == 0 then [] else Where(n - 1, keep) + (if keep(n - 1) then [n - 1] else [])
  }

  predicate StrictlyIncreasing(s: seq<nat>)
  {
    forall i, j :: 0 <= i < j < |s| ==> s[i] < s[j]
  }

  lemma {:induction false} WhereMembers(n: nat, keep: nat -> bool)
    ensures StrictlyIncreasing(Where(n, keep))
    ensures forall k: nat :: k in Where(n, keep) <==> k < n && keep(k)
    ensures forall j :: 0 <= j < |Where(n, keep)| ==> Where(n, keep)[j] < n && keep(Where(n, keep)[j])
  {
    if n > 0 {
      WhereMembers(n - 1, keep);
      var prev := Where(n - 1, keep);
      forall i | 0 <= i < |prev| ensures prev[i] < n - 1 {
        assert prev[i] in prev;
      }
    }
  }

  /** Two predicates that agree below `n` select the same positions. */
  lemma {:induction false} WhereCongruent(n: nat, keep: nat -> bool, other: nat -> bool)
    requires forall k: nat :: k < n ==> keep(k) == other(k)
    ensures Where(n, keep) == Where(n, other)
  {
    if n > 0 {
      WhereCongruent(n - 1, keep, other);
    }
  }

  /** LINQ `Where` over elements: the elements that satisfy `p`, in order. */
  function Filter<T(!new)>(s: seq<T>, p: T -> bool): (r: seq<T>)
    ensures |r| <= |s|
    ensures forall x :: x in r <==> x in s && p(x)
  {
    if s == [] then []
    else
      var rest := Filter(s[1..], p);
      assert forall x :: x in s <==> x == s[0] || x in s[1..];
      (if p(s[0]) then [s[0]] else []) + rest
  }

  /** Two `Where` clauses in a row select what their conjunction selects. */
  lemma {:induction false} FilterFuse<T(!new)>(s: seq<T>, p: T -> bool, q: T -> bool, pq: T -> bool)
    requires forall x :: pq(x) == (p(x) && q(x))
    ensures Filter(Filter(s, p), q) == Filter(s, pq)
  {
    if s != [] {
      FilterFuse(s[1..], p, q, pq);
      var rest := Filter(s[1..], p);
      var tail := Filter(s[1..], pq);
      assert Filter(s, pq) == (if pq(s[0]) then [s[0]] else []) + tail;
      if p(s[0]) {
        assert Filter(s, p) == [s[0]] + rest;
        assert ([s[0]] + rest)[0] == s[0];
        assert ([s[0]] + rest)[1..] == rest;
        assert Filter([s[0]] + rest, q) == (if q(s[0]) then [s[0]] else []) + Filter(rest, q);
      } else {
        assert Filter(s, p) == rest;
      }
    }
  }

  /** A `Where` clause every element passes selects everything. */
  lemma {:induction false} FilterAll<T(!new)>(s: seq<T>, p: T -> bool)
    requires forall x :: x in s ==> p(x)
    ensures Filter(s, p) == s
  {
    if s != [] {
      assert forall x :: x in s[1..] ==> x in s;
      FilterAll(s[1..], p);
    }
  }

  /** Two predicates that agree on every element select the same elements. */
  lemma {:induction false} FilterCongruent<T(!new)>(s: seq<T>, p: T -> bool, q: T -> bool)
    requires forall x :: x in s ==> p(x) == q(x)
    ensures Filter(s, p) == Filter(s, q)
  {
    if s != [] {
      assert forall x :: x in s[1..] ==> x in s;
      FilterCongruent(s[1..], p, q);
    }
  }

  /** LINQ `Skip(n)`: a non-positive count skips nothing. */
  function Skip<T>(s: seq<T>, n: int): (r: seq<T>)
    ensures n <= 0 ==> r == s
    ensures 0 <= n <= |s| ==> r == s[n..]
    ensures n >= |s| ==> r == []
  {
    if n <= 0 then s else if n >= |s| then [] else s[n..]
  }

  /** LINQ `Take(n)`: a non-positive count takes nothing. */
  function Take<T>(s: seq<T>, n: int): (r: seq<T>)
    ensures n <= 0 ==> r == []
    ensures 0 <= n <= |s| ==> r == s[..n]
    ensures n >= |s| ==> r == s
  {
    if n <= 0 then [] else if n >= |s| then s else s[..n]
  }

  /** `Skip(offset).Take(count)`: a contiguous slice of at most `count` elements starting at `offset`. */
  lemma PageSlice<T(!new)>(s: seq<T>, offset: int, count: int)
    ensures |Take(Skip(s, offset), count)| <= if count <= 0 then 0 else count
    ensures 0 <= offset && 0 <= count && offset + count <= |s| ==> Take(Skip(s, offset), count) == s[offset..offset + count]
    ensures forall x :: x in Take(Skip(s, offset), count) ==> x in s
  {
    var k := Skip(s, offset);
    assert forall x :: x in k ==> x in s;
    if 0 <= offset && 0 <= count && offset + count <= |s| {
      assert k == s[offset..];
      assert k[..count] == s[offset..offset + count];
    }
  }

  /** `FirstOrDefault(p)` as a position: the first element that satisfies `p`. */
  function FindFirst<T>(s: seq<T>, p: T -> bool): (r: Option<nat>)
    ensures r.Some? ==> r.value < |s| && p(s[r.value]) && forall j :: 0 <= j < r.value ==> !p(s[j])
    ensures r.None? ==> forall j :: 0 <= j < |s| ==> !p(s[j])
  {
    if s == [] then None
    else if p(s[0]) then Some(0)
    else
      match FindFirst(s[1..], p)
      case None => None
      case Some(k) => Some(k + 1)
  }
}
