/** Sequence combinators behind Rust's iterator pipelines: `filter`, `map`,
    `chunks(n)`, `windows(n)` and the concatenation of the pieces they yield. */
module Seqs {

  /** Concatenation of all pieces, in order. */
  function Flatten<T>(ss: seq<seq<T>>): seq<T> {
    if ss == [] then [] else ss[0] + Flatten(ss[1..])
  }

  lemma {:induction false} FlattenAppend<T>(a: seq<seq<T>>, b: seq<seq<T>>)
    ensures Flatten(a + b) == Flatten(a) + Flatten(b)
  {
    if a == [] {
      assert a + b == b;
    } else {
      assert (a + b)[1..] == a[1..] + b;
      FlattenAppend(a[1..], b);
    }
  }

  /** `s.chunks(n)`: consecutive, non-overlapping pieces of `n` elements, the last one shorter. */
  function Chunks<T>(s: seq<T>, n: nat): (r: seq<seq<T>>)
    requires n > 0
    ensures forall i :: 0 <= i < |r| ==> 0 < |r[i]| <= n
    ensures forall i :: 0 <= i < |r| - 1 ==> |r[i]| == n
    ensures Flatten(r) == s
    decreases |s|
  {
    if s == [] then []
    else if |s| <= n then
      assert Flatten([s]) == s + Flatten([]);
      [s]
    else
      var rest := Chunks(s[n..], n);
      assert ([s[..n]] + rest)[1..] == rest;
      [s[..n]] + rest
  }

  /** `s.windows(n)`: every run of `n` consecutive elements, advancing one element at a time. */
  function Windows<T>(s: seq<T>, n: nat): (r: seq<seq<T>>)
    requires n > 0
    ensures |r| == if |s| < n then 0 else |s| - n + 1
    ensures forall i :: 0 <= i < |r| ==> i + n <= |s| && r[i] == s[i..i + n]
    decreases |s|
  {
    if |s| < n then [] else [s[..n]] + Windows(s[1..], n)
  }

  /** `s.iter().filter(p)`: the elements satisfying `p`, in their original order. */
  function Filter<T(!new)>(s: seq<T>, p: T -> bool): (r: seq<T>)
    ensures |r| <= |s|
    ensures forall x :: x in r <==> x in s && p(x)
    decreases |s|
  {
    if s == [] then []
    else if p(s[0]) then [s[0]] + Filter(s[1..], p)
    else Filter(s[1..], p)
  }

  /** Filtering commutes with concatenation, so it keeps the relative order of what it retains. */
  lemma {:induction false} FilterAppend<T(!new)>(s: seq<T>, t: seq<T>, p: T -> bool)
    ensures Filter(s + t, p) == Filter(s, p) + Filter(t, p)
    decreases |s|
  {
    if s == [] {
      assert s + t == t;
    } else {
      var u := s + t;
      assert u[0] == s[0] && u[1..] == s[1..] + t;
      FilterAppend(s[1..], t, p);
      if p(s[0]) {
        assert [s[0]] + (Filter(s[1..], p) + Filter(t, p)) == ([s[0]] + Filter(s[1..], p)) + Filter(t, p);
      }
    }
  }

  /** Filtering keeps every retained element as often as it occurs and drops all others. */
  lemma {:induction false} FilterMultiplicity<T(!new)>(s: seq<T>, p: T -> bool, x: T)
    ensures multiset(Filter(s, p))[x] == if p(x) then multiset(s)[x] else 0
    decreases |s|
  {
    if s != [] {
      FilterMultiplicity(s[1..], p, x);
      assert s == [s[0]] + s[1..];
      assert multiset(s) == multiset([s[0]]) + multiset(s[1..]);
    }
  }

  /** Nothing is retained when no element satisfies `p`. */
  lemma {:induction false} FilterNone<T(!new)>(s: seq<T>, p: T -> bool)
    requires forall i :: 0 <= i < |s| ==> !p(s[i])
    ensures Filter(s, p) == []
    decreases |s|
  {
    if s != [] {
      FilterNone(s[1..], p);
    }
  }
}
