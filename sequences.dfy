/**
 Order-preserving selection on sequences.

 Both QA scripts and the frequency filter of the substitute evaluation walk a
 list from left to right and keep the elements that pass a test, appending
 them to an output list. `Filter` is that walk as a function; `IsSubsequence`
 says what "keeps the relative order" means.
 */
module Sequences {

  /** The elements of `s` that satisfy `p`, in the order they occur in `s`. */
  function Filter<T>(s: seq<T>, p: T -> bool): (r: seq<T>)
    ensures |r| <= |s|
    decreases |s|
  {
    if s == [] then []
    else Filter(s[..|s| - 1], p) + (if p(s[|s| - 1]) then [s[|s| - 1]] else [])
  }

  /** `idx` lists, in strictly increasing order, positions of `ys` that spell out `xs`. */
  ghost predicate IsEmbedding<T>(idx: seq<nat>, xs: seq<T>, ys: seq<T>)
  {
    && |idx| == |xs|
    && (forall k :: 0 <= k < |idx| ==> idx[k] < |ys| && xs[k] == ys[idx[k]])
    && (forall k, m :: 0 <= k < m < |idx| ==> idx[k] < idx[m])
  }

  /** `xs` is obtained from `ys` by deleting elements, without reordering. */
  ghost predicate IsSubsequence<T>(xs: seq<T>, ys: seq<T>)
  {
    exists idx: seq<nat> :: IsEmbedding(idx, xs, ys)
  }

  /** Appending one element to a filtered prefix is filtering the longer prefix. */
  lemma FilterSnoc<T>(s: seq<T>, x: T, p: T -> bool)
    ensures Filter(s + [x], p) == Filter(s, p) + (if p(x) then [x] else [])
  {
  }

  /** Every kept element passes the test, and every passing element of `s` is kept. */
  lemma {:induction false} FilterMembership<T>(s: seq<T>, p: T -> bool, x: T)
    ensures x in Filter(s, p) <==> x in s && p(x)
    decreases |s|
  {
    if s != [] {
      var init := s[..|s| - 1];
      FilterMembership(init, p, x);
      assert s == init + [s[|s| - 1]];
    }
  }

  /** The filtered list keeps the relative order of the input list. */
  lemma {:induction false} FilterIsSubsequence<T>(s: seq<T>, p: T -> bool)
    ensures IsSubsequence(Filter(s, p), s)
    decreases |s|
  {
    if s == [] {
      assert IsEmbedding([], Filter(s, p), s);
    } else {
      var init := s[..|s| - 1];
      var last := s[|s| - 1];
      FilterIsSubsequence(init, p);
      var idx: seq<nat> :| IsEmbedding(idx, Filter(init, p), init);
      if p(last) {
        var idx' := idx + [|s| - 1];
        assert IsEmbedding(idx', Filter(s, p), s);
      } else {
        assert IsEmbedding(idx, Filter(s, p), s);
      }
    }
  }

  /**
   Filtering by a test and by its negation splits the input: every element
   goes to exactly one of the two outputs.
   */
  lemma FilterPartition<T>(s: seq<T>, p: T -> bool, q: T -> bool)
    requires forall x :: q(x) == !p(x)
    ensures multiset(Filter(s, p)) + multiset(Filter(s, q)) == multiset(s)
    ensures |Filter(s, p)| + |Filter(s, q)| == |s|
  {
    FilterSplitsMultiset(s, p, q);
    assert |multiset(Filter(s, p))| + |multiset(Filter(s, q))| == |multiset(s)|;
  }

  lemma {:induction false} FilterSplitsMultiset<T>(s: seq<T>, p: T -> bool, q: T -> bool)
    requires forall x :: q(x) == !p(x)
    ensures multiset(Filter(s, p)) + multiset(Filter(s, q)) == multiset(s)
    decreases |s|
  {
    if s != [] {
      var init := s[..|s| - 1];
      var last := s[|s| - 1];
      FilterSplitsMultiset(init, p, q);
      assert s == init + [last];
      var kept := if p(last) then [last] else [];
      var dropped := if q(last) then [last] else [];
      assert multiset(kept) + multiset(dropped) == multiset{last};
      assert multiset(Filter(s, p)) == multiset(Filter(init, p)) + multiset(kept);
      assert multiset(Filter(s, q)) == multiset(Filter(init, q)) + multiset(dropped);
    }
  }

  /** Filtering by a conjunction is filtering by one test, then by the other. */
  lemma {:induction false} FilterConjunction<T>(s: seq<T>, p: T -> bool, q: T -> bool, r: T -> bool)
    requires forall x :: r(x) == (p(x) && q(x))
    ensures Filter(s, r) == Filter(Filter(s, p), q)
    decreases |s|
  {
    if s != [] {
      var init := s[..|s| - 1];
      var last := s[|s| - 1];
      FilterConjunction(init, p, q, r);
      assert s == init + [last];
      if p(last) {
        assert Filter(s, p) == Filter(init, p) + [last];
        FilterSnoc(Filter(init, p), last, q);
      } else {
        assert Filter(s, p) == Filter(init, p);
      }
    }
  }
}
