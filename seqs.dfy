/**
 * Python's filtering list comprehension `[g(x) for x in xs if p(x)]`, as one
 * function `f` that returns Some(g(x)) exactly when x is kept. Both
 * `consumer_topics` (blank pieces dropped) and the consumer's poll loop
 * (only valid records reach the handler) are instances of it.
 */
module Seqs {
  import opened Wrappers

  /** The kept images, left to right. */
  function FilterMap<T, U>(f: T -> Option<U>, s: seq<T>): (r: seq<U>)
    ensures |r| <= |s|
  {
    if s == [] then []
    else (match f(s[0]) case Some(u) => [u] case None => []) + FilterMap(f, s[1..])
  }

  /** The positions of the kept elements, in increasing order. */
  function KeptIndices<T, U>(f: T -> Option<U>, s: seq<T>): (idx: seq<nat>)
    ensures forall k :: 0 <= k < |idx| ==> idx[k] < |s| && f(s[idx[k]]).Some?
    ensures forall k, l :: 0 <= k < l < |idx| ==> idx[k] < idx[l]
    ensures forall i :: 0 <= i < |s| && f(s[i]).Some? ==> i in idx
  {
    if s == [] then []
    else
      var n := |s| - 1;
      var front := KeptIndices(f, s[..n]);
      assert forall k :: 0 <= k < |front| ==> s[..n][front[k]] == s[front[k]];
      front + (if f(s[n]).Some? then [n] else [])
  }

  /** One step of the comprehension: the head is kept or dropped, then the rest follows. */
  lemma FilterMapCons<T, U>(f: T -> Option<U>, x: T, rest: seq<T>)
    ensures FilterMap(f, [x] + rest) == (if f(x).Some? then [f(x).value] else []) + FilterMap(f, rest)
  {
    assert ([x] + rest)[0] == x && ([x] + rest)[1..] == rest;
  }

  /** Four elements of which the third is dropped give three results, in order. */
  lemma FilterMapFour<T, U>(f: T -> Option<U>, x1: T, x2: T, x3: T, x4: T, u1: U, u2: U, u4: U)
    requires f(x1) == Some(u1) && f(x2) == Some(u2) && f(x3) == None && f(x4) == Some(u4)
    ensures FilterMap(f, [x1, x2, x3, x4]) == [u1, u2, u4]
  {
    var p4: seq<T> := [x4];
    var p3 := [x3] + p4;
    var p2 := [x2] + p3;
    assert FilterMap(f, p4) == [u4] by {
      FilterMapCons(f, x4, []);
      assert [x4] + [] == p4;
    }
    assert FilterMap(f, p3) == [u4] by {
      FilterMapCons(f, x3, p4);
    }
    assert FilterMap(f, p2) == [u2, u4] by {
      FilterMapCons(f, x2, p3);
    }
    FilterMapCons(f, x1, p2);
    assert [x1, x2, x3, x4] == [x1] + p2;
  }

  /** Filtering distributes over concatenation: the order of the input is kept. */
  lemma {:induction false} FilterMapAppend<T, U>(f: T -> Option<U>, a: seq<T>, b: seq<T>)
    ensures FilterMap(f, a + b) == FilterMap(f, a) + FilterMap(f, b)
  {
    if a == [] {
      assert a + b == b;
    } else {
      assert (a + b)[0] == a[0] && (a + b)[1..] == a[1..] + b;
      FilterMapAppend(f, a[1..], b);
    }
  }

  /**
   * The k-th result is the image of the k-th kept element: nothing is dropped
   * that f keeps, nothing is added, nothing is reordered or duplicated.
   */
  lemma {:induction false} FilterMapAtKeptIndices<T, U>(f: T -> Option<U>, s: seq<T>)
    ensures |FilterMap(f, s)| == |KeptIndices(f, s)|
    ensures forall k :: 0 <= k < |KeptIndices(f, s)| ==>
              f(s[KeptIndices(f, s)[k]]) == Some(FilterMap(f, s)[k])
    decreases |s|
  {
    if s != [] {
      var n := |s| - 1;
      var front := s[..n];
      assert s == front + [s[n]];
      FilterMapAppend(f, front, [s[n]]);
      FilterMapAtKeptIndices(f, front);
      var idx := KeptIndices(f, front);
      assert forall k :: 0 <= k < |idx| ==> front[idx[k]] == s[idx[k]];
    }
  }

  /** An element appears in the result exactly when some input element is mapped to it. */
  lemma FilterMapMember<T, U>(f: T -> Option<U>, s: seq<T>, u: U)
    ensures u in FilterMap(f, s) <==> exists i :: 0 <= i < |s| && f(s[i]) == Some(u)
  {
    FilterMapAtKeptIndices(f, s);
    var r, idx := FilterMap(f, s), KeptIndices(f, s);
    if u in r {
      var k :| 0 <= k < |r| && r[k] == u;
      assert f(s[idx[k]]) == Some(u);
    }
    if i :| 0 <= i < |s| && f(s[i]) == Some(u) {
      assert i in idx;
      var k :| 0 <= k < |idx| && idx[k] == i;
      assert r[k] == u;
    }
  }

  /** How many elements f keeps. */
  function CountKept<T, U>(f: T -> Option<U>, s: seq<T>): nat {
    if s == [] then 0 else (if f(s[0]).Some? then 1 else 0) + CountKept(f, s[1..])
  }

  /** The result has one element per kept input element. */
  lemma {:induction false} FilterMapLength<T, U>(f: T -> Option<U>, s: seq<T>)
    ensures |FilterMap(f, s)| == CountKept(f, s)
  {
    if s != [] {
      FilterMapLength(f, s[1..]);
    }
  }
}
