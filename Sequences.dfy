/**
 * Sequence vocabulary shared by the model: `Array.prototype.filter` as a
 * function, the order embedding that makes "subsequence" precise, sums and
 * first-occurrence de-duplication.
 */
module Sequences {

  /** `s.filter(p)`. It is defined on the last element so that the kept
      positions of a prefix never move when the sequence grows; the result is
      the same as JavaScript's front-to-back filter. */
  function Filter<T>(s: seq<T>, p: T -> bool): (r: seq<T>)
    ensures |r| <= |s|
  {
    if s == [] then []
    else Filter(s[..|s| - 1], p) + (if p(s[|s| - 1]) then [s[|s| - 1]] else [])
  }

  /** The positions of `s` that `Filter(s, p)` keeps, in increasing order. */
  ghost function KeptIndices<T>(s: seq<T>, p: T -> bool): seq<nat>
  {
    if s == [] then []
    else KeptIndices(s[..|s| - 1], p) + (if p(s[|s| - 1]) then [|s| - 1] else [])
  }

  /** `idx` embeds `r` into `s` preserving order: `r[k]` sits at position
      `idx[k]` of `s`, and the positions strictly increase. */
  ghost predicate OrderEmbedding<T>(idx: seq<nat>, r: seq<T>, s: seq<T>)
  {
    && |idx| == |r|
    && (forall k :: 0 <= k < |idx| ==> idx[k] < |s| && r[k] == s[idx[k]])
    && (forall k, l :: 0 <= k < l < |idx| ==> idx[k] < idx[l])
  }

  /** `r` is obtained from `s` by deleting elements, keeping the rest in order. */
  ghost predicate IsSubsequence<T>(r: seq<T>, s: seq<T>)
  {
    exists idx :: OrderEmbedding(idx, r, s)
  }

  lemma FilterSnoc<T>(s: seq<T>, x: T, p: T -> bool)
    ensures Filter(s + [x], p) == Filter(s, p) + (if p(x) then [x] else [])
  {
    assert (s + [x])[..|s|] == s;
  }

  /** The filter keeps exactly the positions whose element satisfies `p`, in
      their original order. */
  lemma {:induction false} FilterEnumerates<T>(s: seq<T>, p: T -> bool)
    ensures OrderEmbedding(KeptIndices(s, p), Filter(s, p), s)
    ensures forall i :: 0 <= i < |s| ==> (p(s[i]) <==> i in KeptIndices(s, p))
  {
    if s != [] {
      var n := |s| - 1;
      var front := s[..n];
      FilterEnumerates(front, p);
      var idx, r := KeptIndices(front, p), Filter(front, p);
      assert forall k :: 0 <= k < |idx| ==> idx[k] < n;
      if p(s[n]) {
        assert KeptIndices(s, p) == idx + [n];
        assert Filter(s, p) == r + [s[n]];
      } else {
        assert KeptIndices(s, p) == idx;
        assert Filter(s, p) == r;
      }
      forall i | 0 <= i < |s|
        ensures p(s[i]) <==> i in KeptIndices(s, p)
      {
        if i < n {
          assert s[i] == front[i];
        }
      }
    }
  }

  /** Every kept element comes from the input and passes the callback. */
  lemma FilterMembers<T>(s: seq<T>, p: T -> bool)
    ensures forall x :: x in Filter(s, p) ==> x in s && p(x)
  {
    FilterEnumerates(s, p);
    var idx := KeptIndices(s, p);
    forall x | x in Filter(s, p)
      ensures x in s && p(x)
    {
      var k :| 0 <= k < |Filter(s, p)| && Filter(s, p)[k] == x;
      assert s[idx[k]] == x;
    }
  }

  /** `r` is the subsequence of `s` made of exactly the positions whose
      element satisfies `p`. */
  ghost predicate SelectsExactly<T>(r: seq<T>, s: seq<T>, p: T -> bool)
  {
    exists idx :: OrderEmbedding(idx, r, s) && forall i :: 0 <= i < |s| ==> (p(s[i]) <==> i in idx)
  }

  lemma FilterSelectsExactly<T>(s: seq<T>, p: T -> bool)
    ensures SelectsExactly(Filter(s, p), s, p)
    ensures IsSubsequence(Filter(s, p), s)
  {
    FilterEnumerates(s, p);
  }

  /** Filters that agree on every element of `s` give the same result. */
  lemma {:induction false} FilterCongruence<T>(s: seq<T>, p: T -> bool, q: T -> bool)
    requires forall i :: 0 <= i < |s| ==> p(s[i]) == q(s[i])
    ensures Filter(s, p) == Filter(s, q)
  {
    if s != [] {
      FilterCongruence(s[..|s| - 1], p, q);
    }
  }

  /** A filter that every element passes keeps the whole sequence. */
  lemma {:induction false} FilterKeepsAll<T>(s: seq<T>, p: T -> bool)
    requires forall i :: 0 <= i < |s| ==> p(s[i])
    ensures Filter(s, p) == s
  {
    if s != [] {
      FilterKeepsAll(s[..|s| - 1], p);
    }
  }

  /** A filter that no element passes keeps nothing. */
  lemma {:induction false} FilterKeepsNone<T>(s: seq<T>, p: T -> bool)
    requires forall i :: 0 <= i < |s| ==> !p(s[i])
    ensures Filter(s, p) == []
  {
    if s != [] {
      FilterKeepsNone(s[..|s| - 1], p);
    }
  }

  /** Two filters in a row are one filter by the conjunction. */
  lemma {:induction false} FilterFilter<T>(s: seq<T>, p: T -> bool, q: T -> bool, both: T -> bool)
    requires forall x :: both(x) == (p(x) && q(x))
    ensures Filter(Filter(s, p), q) == Filter(s, both)
  {
    if s != [] {
      var n := |s| - 1;
      var front, last := s[..n], s[n];
      FilterFilter(front, p, q, both);
      var once := Filter(front, p);
      if p(last) {
        assert Filter(s, p) == once + [last];
        FilterSnoc(once, last, q);
        assert Filter(Filter(s, p), q) == Filter(once, q) + (if q(last) then [last] else []);
      } else {
        assert Filter(s, p) == once;
      }
      assert Filter(s, both) == Filter(front, both) + (if both(last) then [last] else []);
    }
  }

  function Sum(xs: seq<nat>): nat
  {
    if xs == [] then 0 else Sum(xs[..|xs| - 1]) + xs[|xs| - 1]
  }

  lemma SumSnoc(xs: seq<nat>, x: nat)
    ensures Sum(xs + [x]) == Sum(xs) + x
  {
    assert (xs + [x])[..|xs|] == xs;
  }

  ghost predicate NoDuplicates<T>(s: seq<T>)
  {
    forall i, j :: 0 <= i < j < |s| ==> s[i] != s[j]
  }

  /** The distinct elements of `s` in the order of their first occurrence. */
  function FirstOccurrences<T(==,!new)>(s: seq<T>): (r: seq<T>)
    ensures NoDuplicates(r)
    ensures forall x :: x in r <==> x in s
  {
    if s == [] then []
    else
      var front, last := s[..|s| - 1], s[|s| - 1];
      assert s == front + [last];
      if last in front then FirstOccurrences(front) else FirstOccurrences(front) + [last]
  }

  lemma FirstOccurrencesSnoc<T(!new)>(s: seq<T>, x: T)
    ensures FirstOccurrences(s + [x]) ==
      if x in s then FirstOccurrences(s) else FirstOccurrences(s) + [x]
  {
    assert (s + [x])[..|s|] == s;
  }

  /** The position where `x` first occurs in `s`. */
  function FirstIndex<T(==)>(s: seq<T>, x: T): (i: nat)
    requires x in s
    ensures i < |s| && s[i] == x
    ensures forall j :: 0 <= j < i ==> s[j] != x
  {
    if s[0] == x then 0 else 1 + FirstIndex(s[1..], x)
  }

  lemma FirstIndexSnoc<T>(s: seq<T>, x: T, y: T)
    requires x in s
    ensures FirstIndex(s + [y], x) == FirstIndex(s, x)
  {
    var a, b := FirstIndex(s + [y], x), FirstIndex(s, x);
    assert (s + [y])[b] == x;
  }

  /** `FirstOccurrences` lists the elements by increasing first position. */
  lemma {:induction false} FirstOccurrencesOrdered<T(!new)>(s: seq<T>)
    ensures forall i, j :: 0 <= i < j < |FirstOccurrences(s)| ==>
      FirstIndex(s, FirstOccurrences(s)[i]) < FirstIndex(s, FirstOccurrences(s)[j])
  {
    if s != [] {
      var front, last := s[..|s| - 1], s[|s| - 1];
      assert s == front + [last];
      FirstOccurrencesOrdered(front);
      FirstOccurrencesSnoc(front, last);
      var r, r0 := FirstOccurrences(s), FirstOccurrences(front);
      forall i, j | 0 <= i < j < |r|
        ensures FirstIndex(s, r[i]) < FirstIndex(s, r[j])
      {
        assert r[i] in front;
        FirstIndexSnoc(front, r[i], last);
        if j < |r0| {
          assert r[j] == r0[j] && r[i] == r0[i];
          FirstIndexSnoc(front, r[j], last);
        } else {
          assert r[j] == last && last !in front;
          assert FirstIndex(s, last) == |front|;
        }
      }
    }
  }
}
