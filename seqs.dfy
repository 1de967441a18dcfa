/** Sequence helpers: the `Array.prototype.filter` the clients and routes use,
    order-preserving subsequences and duplicate-freedom. */
module Seqs {

  /** The elements of `s` that satisfy `f`, in their original order. */
  function Filter<T(!new)>(s: seq<T>, f: T -> bool): (r: seq<T>)
    ensures |r| <= |s|
    ensures forall i :: 0 <= i < |r| ==> r[i] in s && f(r[i])
    ensures forall i :: 0 <= i < |s| && f(s[i]) ==> s[i] in r
    ensures forall x {:trigger multiset(r)[x]} :: multiset(r)[x] == if f(x) then multiset(s)[x] else 0
  {
    if s == [] then []
    else
      var rest := Filter(s[1..], f);
      var r := if f(s[0]) then [s[0]] + rest else rest;
      FilterCountStep(s, f, rest, r);
      r
  }

  /** One step of the filter keeps each element's multiplicity when it passes and drops
      it otherwise. */
  lemma FilterCountStep<T(!new)>(s: seq<T>, f: T -> bool, rest: seq<T>, r: seq<T>)
    requires s != []
    requires forall x {:trigger multiset(rest)[x]} :: multiset(rest)[x] == if f(x) then multiset(s[1..])[x] else 0
    requires r == if f(s[0]) then [s[0]] + rest else rest
    ensures forall x {:trigger multiset(r)[x]} :: multiset(r)[x] == if f(x) then multiset(s)[x] else 0
  {
    assert multiset(s) == multiset{s[0]} + multiset(s[1..]) by { assert s == [s[0]] + s[1..]; }
    forall x ensures multiset(r)[x] == if f(x) then multiset(s)[x] else 0 {
      assert multiset(rest)[x] == if f(x) then multiset(s[1..])[x] else 0;
    }
  }

  /** `a` is obtained from `b` by deleting elements (order is kept). */
  predicate IsSubsequence<T(==)>(a: seq<T>, b: seq<T>)
    decreases |b|
  {
    if a == [] then true
    else if b == [] then false
    else if a[0] == b[0] then IsSubsequence(a[1..], b[1..])
    else IsSubsequence(a, b[1..])
  }

  predicate NoDuplicates<T(==)>(s: seq<T>) {
    forall i, j :: 0 <= i < j < |s| ==> s[i] != s[j]
  }

  /** A filter deletes elements and never reorders them. */
  lemma {:induction false} FilterIsSubsequence<T(!new)>(s: seq<T>, f: T -> bool)
    ensures IsSubsequence(Filter(s, f), s)
  {
    if s != [] {
      FilterIsSubsequence(s[1..], f);
      var r := Filter(s[1..], f);
      if !f(s[0]) && r != [] {
        assert f(r[0]);
      }
    }
  }

  /** Two filters in a row are one filter by the conjunction of their predicates. */
  lemma {:induction false} FilterFilter<T(!new)>(s: seq<T>, f: T -> bool, g: T -> bool, h: T -> bool)
    requires forall x :: h(x) == (f(x) && g(x))
    ensures Filter(Filter(s, f), g) == Filter(s, h)
  {
    if s != [] {
      FilterFilter(s[1..], f, g, h);
      if f(s[0]) {
        assert Filter(s, f) == [s[0]] + Filter(s[1..], f);
        assert Filter(s, f)[1..] == Filter(s[1..], f);
      }
    }
  }

  /** Filtering by a predicate that every element satisfies keeps the sequence. */
  lemma {:induction false} FilterAll<T(!new)>(s: seq<T>, f: T -> bool)
    requires forall i :: 0 <= i < |s| ==> f(s[i])
    ensures Filter(s, f) == s
  {
    if s != [] {
      FilterAll(s[1..], f);
    }
  }

  /** A filter of a duplicate-free sequence is duplicate-free. */
  lemma {:induction false} FilterNoDuplicates<T(!new)>(s: seq<T>, f: T -> bool)
    ensures NoDuplicates(s) ==> NoDuplicates(Filter(s, f))
  {
    if s != [] && NoDuplicates(s) {
      FilterNoDuplicates(s[1..], f);
      if f(s[0]) {
        var r := Filter(s[1..], f);
        assert s[0] !in s[1..];
        assert s[0] !in r;
        assert Filter(s, f) == [s[0]] + r;
      }
    }
  }

  /** Removing position `i > 0` is keeping the head and removing position `i - 1` of the tail. */
  lemma RemoveAtTail<T>(s: seq<T>, i: nat)
    requires 0 < i < |s|
    ensures s[..i] + s[i + 1..] == [s[0]] + (s[1..][..i - 1] + s[1..][i..])
  {
    assert s[..i] == [s[0]] + s[1..][..i - 1];
    assert s[i + 1..] == s[1..][i..];
  }
}
