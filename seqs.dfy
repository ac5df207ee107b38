/** Order-preserving selection and counting over sequences: the shape of
    every list comprehension with an `if` in the task manager. */
module Seqs {

  /** The elements of `s` that satisfy `p`, in their original order. */
  function Filter<T>(s: seq<T>, p: T -> bool): (r: seq<T>)
    ensures |r| <= |s|
    ensures forall i :: 0 <= i < |r| ==> r[i] in s && p(r[i])
    ensures forall i :: 0 <= i < |s| && p(s[i]) ==> s[i] in r
    decreases |s|
  {
    if s == [] then []
    else Filter(s[..|s| - 1], p) + (if p(s[|s| - 1]) then [s[|s| - 1]] else [])
  }

  /** Selecting from a concatenation selects from each part in turn. */
  lemma {:induction false} FilterAppend<T>(a: seq<T>, b: seq<T>, p: T -> bool)
    ensures Filter(a + b, p) == Filter(a, p) + Filter(b, p)
    decreases |b|
  {
    if b == [] {
      assert a + b == a;
    } else {
      var b' := b[..|b| - 1];
      assert (a + b)[..|a + b| - 1] == a + b';
      assert (a + b)[|a + b| - 1] == b[|b| - 1];
      FilterAppend(a, b', p);
    }
  }

  /** Selecting with a predicate that holds of every element keeps everything. */
  lemma {:induction false} FilterAll<T>(s: seq<T>, p: T -> bool)
    requires forall i :: 0 <= i < |s| ==> p(s[i])
    ensures Filter(s, p) == s
    decreases |s|
  {
    if s != [] {
      assert s[..|s| - 1] + [s[|s| - 1]] == s;
      FilterAll(s[..|s| - 1], p);
    }
  }

  /** `key` strictly increases along `s`. */
  ghost predicate IncreasingBy<T>(s: seq<T>, key: T -> int) {
    forall i, j :: 0 <= i < j < |s| ==> key(s[i]) < key(s[j])
  }

  /** A selection keeps the elements' relative order: whatever is strictly
      increasing under `key` in `s` stays so in the selection. */
  lemma {:induction false} FilterKeepsIncreasing<T>(s: seq<T>, p: T -> bool, key: T -> int)
    requires IncreasingBy(s, key)
    ensures IncreasingBy(Filter(s, p), key)
    decreases |s|
  {
    if s != [] {
      var s' := s[..|s| - 1];
      var last := s[|s| - 1];
      FilterKeepsIncreasing(s', p, key);
      var r' := Filter(s', p);
      forall i | 0 <= i < |r'| ensures key(r'[i]) < key(last) {
        var k :| 0 <= k < |s'| && s'[k] == r'[i];
      }
      var r := Filter(s, p);
      assert r == r' + (if p(last) then [last] else []);
      forall i, j | 0 <= i < j < |r| ensures key(r[i]) < key(r[j]) {
        if j < |r'| {
          assert r[i] == r'[i] && r[j] == r'[j];
        } else {
          assert r[i] == r'[i] && r[j] == last;
        }
      }
    }
  }

  /** `[f(x) for x in s]`. */
  function Map<T, U>(s: seq<T>, f: T -> U): (r: seq<U>)
    ensures |r| == |s|
    ensures forall i :: 0 <= i < |s| ==> r[i] == f(s[i])
    decreases |s|
  {
    if s == [] then [] else Map(s[..|s| - 1], f) + [f(s[|s| - 1])]
  }

  /** `[f(x) for x in s if p(x)]`: the images of the selected elements. */
  function MapFilter<T, U>(s: seq<T>, p: T -> bool, f: T -> U): (r: seq<U>)
    ensures |r| <= |s|
    decreases |s|
  {
    if s == [] then []
    else MapFilter(s[..|s| - 1], p, f) + (if p(s[|s| - 1]) then [f(s[|s| - 1])] else [])
  }

  /** Mapping while selecting is mapping the selection, element by element. */
  lemma {:induction false} MapFilterIsMapOfFilter<T, U>(s: seq<T>, p: T -> bool, f: T -> U)
    ensures |MapFilter(s, p, f)| == |Filter(s, p)|
    ensures forall i :: 0 <= i < |Filter(s, p)| ==> MapFilter(s, p, f)[i] == f(Filter(s, p)[i])
    decreases |s|
  {
    if s != [] {
      var init, last := s[..|s| - 1], s[|s| - 1];
      MapFilterIsMapOfFilter(init, p, f);
      var a0, f0 := MapFilter(init, p, f), Filter(init, p);
      var a, fs := MapFilter(s, p, f), Filter(s, p);
      if p(last) {
        assert a == a0 + [f(last)] && fs == f0 + [last];
        forall i | 0 <= i < |fs| ensures a[i] == f(fs[i]) {
          if i < |f0| { assert a[i] == a0[i] && fs[i] == f0[i]; }
        }
      }
    }
  }

  /** Mapping while selecting over a concatenation works on each part in turn. */
  lemma {:induction false} MapFilterAppend<T, U>(a: seq<T>, b: seq<T>, p: T -> bool, f: T -> U)
    ensures MapFilter(a + b, p, f) == MapFilter(a, p, f) + MapFilter(b, p, f)
    decreases |b|
  {
    if b == [] {
      assert a + b == a;
    } else {
      var b' := b[..|b| - 1];
      assert (a + b)[..|a + b| - 1] == a + b';
      assert (a + b)[|a + b| - 1] == b[|b| - 1];
      MapFilterAppend(a, b', p, f);
    }
  }

  /** How many elements of `s` satisfy `p` (Python's `sum(1 for x in s if p(x))`). */
  function Count<T>(s: seq<T>, p: T -> bool): (n: nat)
    ensures n <= |s|
    ensures n == 0 <==> forall i :: 0 <= i < |s| ==> !p(s[i])
    decreases |s|
  {
    if s == [] then 0
    else Count(s[..|s| - 1], p) + (if p(s[|s| - 1]) then 1 else 0)
  }

  /** Counting is selecting and taking the length. */
  lemma {:induction false} CountIsFilterLength<T>(s: seq<T>, p: T -> bool)
    ensures Count(s, p) == |Filter(s, p)|
    decreases |s|
  {
    if s != [] {
      CountIsFilterLength(s[..|s| - 1], p);
    }
  }

  /** Three mutually exclusive conditions together count at most every element once. */
  lemma {:induction false} DisjointCountsBounded<T>(s: seq<T>, p: T -> bool, q: T -> bool, r: T -> bool)
    requires forall i :: 0 <= i < |s| ==> !(p(s[i]) && q(s[i])) && !(p(s[i]) && r(s[i])) && !(q(s[i]) && r(s[i]))
    ensures Count(s, p) + Count(s, q) + Count(s, r) <= |s|
    decreases |s|
  {
    if s != [] {
      DisjointCountsBounded(s[..|s| - 1], p, q, r);
    }
  }
}
