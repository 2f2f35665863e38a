/** Index selection and permutations over sequences. */
module Sequences {

  /** The elements of `s` at the positions listed in `idx`, in that order. */
  function Pick<T>(s: seq<T>, idx: seq<nat>): (r: seq<T>)
    requires forall k :: 0 <= k < |idx| ==> idx[k] < |s|
    ensures |r| == |idx|
    ensures forall k :: 0 <= k < |idx| ==> r[k] == s[idx[k]]
  {
    seq(|idx|, k requires 0 <= k < |idx| => s[idx[k]])
  }

  /** The indices 0, 1, ..., n - 1 in increasing order. */
  function Range(n: nat): (r: seq<nat>)
    ensures |r| == n
    ensures forall i :: 0 <= i < n ==> r[i] == i
  {
    seq(n, i requires 0 <= i => i as nat)
  }

  /** Selecting every position in order gives the sequence back. */
  lemma PickIdentity<T>(s: seq<T>)
    ensures Pick(s, Range(|s|)) == s
  {
  }

  /** `p` lists every index 0 .. n - 1 exactly once, in some order. */
  ghost predicate IsPermutation(p: seq<nat>, n: nat) {
    multiset(p) == multiset(Range(n))
  }

  /** A permutation of 0 .. n - 1 has n entries, each below n. */
  lemma PermutationBounded(p: seq<nat>, n: nat)
    requires IsPermutation(p, n)
    ensures |p| == n
    ensures forall k :: 0 <= k < |p| ==> p[k] < n
  {
    assert |p| == |multiset(p)| == |multiset(Range(n))| == n;
    forall k | 0 <= k < |p|
      ensures p[k] < n
    {
      assert p[k] in multiset(p);
      assert p[k] in Range(n);
    }
  }

  /** Selecting positions is compatible with splitting the index list. */
  lemma PickAppend<T>(s: seq<T>, a: seq<nat>, b: seq<nat>)
    requires forall k :: 0 <= k < |a| ==> a[k] < |s|
    requires forall k :: 0 <= k < |b| ==> b[k] < |s|
    ensures Pick(s, a + b) == Pick(s, a) + Pick(s, b)
  {
    assert forall k :: 0 <= k < |a + b| ==> (a + b)[k] < |s|;
  }

  /** The indices below n are those below n - 1, and n - 1. */
  lemma RangeSnoc(n: nat)
    requires n > 0
    ensures multiset(Range(n - 1)) == multiset(Range(n)) - multiset{(n - 1) as nat}
  {
    assert Range(n) == Range(n - 1) + [n - 1];
  }

  /** Dropping the entry that holds the largest index n - 1 from a permutation
      of 0 .. n - 1 leaves a permutation of 0 .. n - 2. */
  lemma DropLargest(p: seq<nat>, n: nat, j: nat)
    requires n > 0 && IsPermutation(p, n)
    requires j < |p| && p[j] == n - 1
    ensures IsPermutation(p[..j] + p[j + 1..], n - 1)
  {
    var before, after := p[..j], p[j + 1..];
    assert p == before + [p[j]] + after;
    assert multiset(before + after) == multiset(p) - multiset{p[j]};
    RangeSnoc(n);
  }

  /** The two sides of a split sequence hold only values the whole holds. */
  lemma SidesBounded(before: seq<nat>, after: seq<nat>, m: nat)
    requires forall k :: 0 <= k < |before + after| ==> (before + after)[k] < m
    ensures forall k :: 0 <= k < |before| ==> before[k] < m
    ensures forall k :: 0 <= k < |after| ==> after[k] < m
  {
    forall k | 0 <= k < |before|
      ensures before[k] < m
    {
      assert before[k] == (before + after)[k];
    }
    forall k | 0 <= k < |after|
      ensures after[k] < m
    {
      assert after[k] == (before + after)[|before| + k];
    }
  }

  /** Selecting through `before + [n - 1] + after`, where the other indices
      stay below n - 1, adds the last element of `s` to what the same
      indices select from the prefix of `s`. */
  lemma PickAroundLast<T>(s: seq<T>, before: seq<nat>, after: seq<nat>)
    requires |s| > 0
    requires forall k :: 0 <= k < |before| ==> before[k] < |s| - 1
    requires forall k :: 0 <= k < |after| ==> after[k] < |s| - 1
    ensures multiset(Pick(s, before + [|s| - 1] + after))
         == multiset(Pick(s[..|s| - 1], before + after)) + multiset{s[|s| - 1]}
  {
    var last: nat := |s| - 1;
    var s' := s[..last];
    var left := before + [last];
    assert forall k :: 0 <= k < |left| ==> left[k] < |s| by {
      forall k | 0 <= k < |left| ensures left[k] < |s| {
        if k < |before| { assert left[k] == before[k]; }
      }
    }
    PickAppend(s, left, after);
    PickAppend(s, before, [last]);
    assert Pick(s, before) == Pick(s', before);
    assert Pick(s, after) == Pick(s', after);
    PickAppend(s', before, after);
  }

  /** Reading `s` through a permutation of its indices rearranges it: the
      result holds exactly the same elements, with the same multiplicities. */
  lemma {:induction false} PickPermutation<T>(s: seq<T>, p: seq<nat>)
    requires IsPermutation(p, |s|)
    ensures |p| == |s|
    ensures forall k :: 0 <= k < |p| ==> p[k] < |s|
    ensures multiset(Pick(s, p)) == multiset(s)
  {
    PermutationBounded(p, |s|);
    var n := |s|;
    if n > 0 {
      var last: nat := n - 1;
      var j := LargestAt(p, n);
      var before, after := p[..j], p[j + 1..];
      SplitAtLargest(p, n, j);
      PickPermutation(s[..last], before + after);
      PickAroundLast(s, before, after);
      assert s == s[..last] + [s[last]];
    }
  }

  /** A permutation of 0 .. n - 1, for n > 0, holds n - 1 somewhere. */
  lemma LargestAt(p: seq<nat>, n: nat) returns (j: nat)
    requires n > 0 && IsPermutation(p, n)
    ensures j < |p| && p[j] == n - 1
  {
    assert Range(n)[n - 1] == n - 1;
    assert n - 1 in multiset(p);
    j :| 0 <= j < |p| && p[j] == n - 1;
  }

  /** Around the entry holding n - 1, a permutation splits into two sides
      that together form a permutation of 0 .. n - 2. */
  lemma SplitAtLargest(p: seq<nat>, n: nat, j: nat)
    requires n > 0 && IsPermutation(p, n)
    requires j < |p| && p[j] == n - 1
    ensures p == p[..j] + [n - 1] + p[j + 1..]
    ensures IsPermutation(p[..j] + p[j + 1..], n - 1)
    ensures forall k :: 0 <= k < |p| && k != j ==> p[k] < n - 1
  {
    var before, after := p[..j], p[j + 1..];
    assert p == before + [n - 1] + after;
    DropLargest(p, n, j);
    PermutationBounded(before + after, n - 1);
    SidesBounded(before, after, n - 1);
    forall k | 0 <= k < |p| && k != j
      ensures p[k] < n - 1
    {
      if k < j { assert p[k] == before[k]; } else { assert p[k] == after[k - j - 1]; }
    }
  }
}
