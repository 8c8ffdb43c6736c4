/**
 `Array.prototype.filter`: the list views of the site (package catalogue,
 destination search) are all filters of a fetched or constant list.
 */
module Seqs {

  /** `s.filter(p)`: the elements of `s` that satisfy `p`, in their original order. */
  function Filter<T>(s: seq<T>, p: T -> bool): (r: seq<T>)
    ensures |r| <= |s|
    ensures forall x :: x in r ==> x in s && p(x)
  {
    if s == [] then []
    else if p(s[0]) then [s[0]] + Filter(s[1..], p)
    else Filter(s[1..], p)
  }

  /** The positions of `s` whose element satisfies `p`, in increasing order. */
  function KeptIndices<T>(s: seq<T>, p: T -> bool): (r: seq<int>)
    decreases |s|
  {
    if s == [] then []
    else if p(s[0]) then [0] + Shift(KeptIndices(s[1..], p))
    else Shift(KeptIndices(s[1..], p))
  }

  /** Every index moved one position to the right. */
  function Shift(idx: seq<int>): (r: seq<int>)
    ensures |r| == |idx|
    ensures forall k :: 0 <= k < |idx| ==> r[k] == idx[k] + 1
  {
    if idx == [] then [] else [idx[0] + 1] + Shift(idx[1..])
  }

  /** `r` is read off `s` at the strictly increasing positions `idx`. */
  ghost predicate SubsequenceAt<T>(r: seq<T>, s: seq<T>, idx: seq<int>)
  {
    && |idx| == |r|
    && (forall k :: 0 <= k < |idx| ==> 0 <= idx[k] < |s| && s[idx[k]] == r[k])
    && (forall k, l :: 0 <= k < l < |idx| ==> idx[k] < idx[l])
  }

  /** `r` is an order-preserving subsequence of `s`. */
  ghost predicate IsSubsequence<T>(r: seq<T>, s: seq<T>)
  {
    exists idx :: SubsequenceAt(r, s, idx)
  }

  /** Each kept position is in range, holds a matching element, and the positions increase. */
  lemma {:induction false} KeptIndicesSound<T>(s: seq<T>, p: T -> bool)
    ensures forall k :: 0 <= k < |KeptIndices(s, p)| ==>
      0 <= KeptIndices(s, p)[k] < |s| && p(s[KeptIndices(s, p)[k]])
    ensures forall k, l :: 0 <= k < l < |KeptIndices(s, p)| ==> KeptIndices(s, p)[k] < KeptIndices(s, p)[l]
    decreases |s|
  {
    if s != [] {
      var tail := s[1..];
      KeptIndicesSound(tail, p);
      var shifted := Shift(KeptIndices(tail, p));
      assert forall k :: 0 <= k < |shifted| ==> s[shifted[k]] == tail[shifted[k] - 1];
    }
  }

  /** Every matching position is kept. */
  lemma {:induction false} KeptIndicesComplete<T>(s: seq<T>, p: T -> bool)
    ensures forall i :: 0 <= i < |s| && p(s[i]) ==> i in KeptIndices(s, p)
    decreases |s|
  {
    if s != [] {
      var tail := s[1..];
      KeptIndicesComplete(tail, p);
      var rest := KeptIndices(tail, p);
      var shifted := Shift(rest);
      forall i | 1 <= i < |s| && p(s[i])
        ensures i in shifted
      {
        assert tail[i - 1] == s[i];
        var k :| 0 <= k < |rest| && rest[k] == i - 1;
        assert shifted[k] == i;
      }
    }
  }

  /** The filtered list is the input read off at the kept positions. */
  lemma {:induction false} FilterAtKeptIndices<T>(s: seq<T>, p: T -> bool)
    ensures |Filter(s, p)| == |KeptIndices(s, p)|
    ensures forall k :: 0 <= k < |KeptIndices(s, p)| ==>
      0 <= KeptIndices(s, p)[k] < |s| && Filter(s, p)[k] == s[KeptIndices(s, p)[k]]
    decreases |s|
  {
    KeptIndicesSound(s, p);
    if s != [] {
      var tail := s[1..];
      FilterAtKeptIndices(tail, p);
      var shifted := Shift(KeptIndices(tail, p));
      assert forall k :: 0 <= k < |shifted| ==> s[shifted[k]] == tail[shifted[k] - 1];
    }
  }

  /**
   The filter keeps exactly the positions whose element satisfies `p`,
   and reads them off in order.
   */
  lemma FilterExact<T>(s: seq<T>, p: T -> bool)
    ensures SubsequenceAt(Filter(s, p), s, KeptIndices(s, p))
    ensures forall i :: 0 <= i < |s| ==> (i in KeptIndices(s, p) <==> p(s[i]))
  {
    KeptIndicesSound(s, p);
    KeptIndicesComplete(s, p);
    FilterAtKeptIndices(s, p);
  }

  /** The filtered list is an order-preserving subsequence of the input. */
  lemma FilterIsSubsequence<T>(s: seq<T>, p: T -> bool)
    ensures IsSubsequence(Filter(s, p), s)
  {
    FilterExact(s, p);
  }

  /** Every element that satisfies `p` survives the filter. */
  lemma {:induction false} FilterKeepsMatches<T>(s: seq<T>, p: T -> bool)
    ensures forall x :: x in s && p(x) ==> x in Filter(s, p)
    decreases |s|
  {
    if s != [] {
      FilterKeepsMatches(s[1..], p);
      assert forall x :: x in s ==> x == s[0] || x in s[1..];
    }
  }

  /** A predicate that accepts every element leaves the list unchanged. */
  lemma {:induction false} FilterAll<T>(s: seq<T>, p: T -> bool)
    requires forall x :: x in s ==> p(x)
    ensures Filter(s, p) == s
    decreases |s|
  {
    if s != [] {
      assert forall x :: x in s[1..] ==> x in s;
      FilterAll(s[1..], p);
      assert s == [s[0]] + s[1..];
    }
  }

  /** The filter is empty exactly when no element satisfies `p`. */
  lemma {:induction false} FilterEmptyIff<T>(s: seq<T>, p: T -> bool)
    ensures Filter(s, p) == [] <==> forall x :: x in s ==> !p(x)
    decreases |s|
  {
    if s != [] {
      FilterEmptyIff(s[1..], p);
      assert forall x :: x in s ==> x == s[0] || x in s[1..];
    }
  }

  /** When exactly one position matches, the filter yields that one element. */
  lemma {:induction false} FilterSingle<T>(s: seq<T>, p: T -> bool, k: int)
    requires 0 <= k < |s|
    requires forall i :: 0 <= i < |s| ==> (p(s[i]) <==> i == k)
    ensures Filter(s, p) == [s[k]]
    decreases |s|
  {
    var tail := s[1..];
    if k == 0 {
      assert forall x :: x in tail ==> !p(x);
      FilterEmptyIff(tail, p);
    } else {
      FilterSingle(tail, p, k - 1);
    }
  }
}
