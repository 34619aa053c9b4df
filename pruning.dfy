/**
  The selection made by `App.delete_old_versions`: sort the version numbers
  newest first (`versions.sort(reverse=True)`), keep the first `keep`, and
  discard the rest (`versions[keep:]`).
*/
module Pruning {

  /** Non-increasing: newest version first. */
  predicate IsDescending(s: seq<int>) {
    forall i :: 0 < i < |s| ==> s[i - 1] >= s[i]
  }

  /** Inserting x into a descending sequence in its place. */
  function Insert(x: int, s: seq<int>): (r: seq<int>)
    ensures multiset(r) == multiset(s) + multiset{x}
    ensures |r| == |s| + 1 && (r[0] == x || (|s| > 0 && r[0] == s[0]))
    ensures IsDescending(s) ==> IsDescending(r)
  {
    if |s| == 0 || x >= s[0] then [x] + s
    else
      assert s == [s[0]] + s[1..];
      [s[0]] + Insert(x, s[1..])
  }

  /** The list `sorted(s, reverse=True)`: a reference definition of the descending order. */
  function SortDesc(s: seq<int>): (r: seq<int>)
    ensures IsDescending(r) && multiset(r) == multiset(s) && |r| == |s|
  {
    if |s| == 0 then []
    else
      assert s == [s[0]] + s[1..];
      Insert(s[0], SortDesc(s[1..]))
  }

  /** In a descending sequence every element is at least every later one. */
  lemma {:induction false} DescendingPairwise(s: seq<int>, i: nat, j: nat)
    requires IsDescending(s) && i <= j < |s|
    ensures s[i] >= s[j]
    decreases j - i
  {
    if i < j {
      DescendingPairwise(s, i + 1, j);
    }
  }

  lemma DescendingHeadIsMax(s: seq<int>, x: int)
    requires IsDescending(s) && x in multiset(s)
    ensures |s| > 0 && s[0] >= x
  {
    var j :| 0 <= j < |s| && s[j] == x;
    DescendingPairwise(s, 0, j);
  }

  /** There is only one descending arrangement of a multiset of versions. */
  lemma {:induction false} DescendingUnique(s: seq<int>, t: seq<int>)
    requires IsDescending(s) && IsDescending(t) && multiset(s) == multiset(t)
    ensures s == t
    decreases |s|
  {
    if |s| == 0 {
      assert |t| == |multiset(t)| == 0;
    } else {
      assert s[0] in multiset(s);
      DescendingHeadIsMax(t, s[0]);
      assert t[0] in multiset(t);
      DescendingHeadIsMax(s, t[0]);
      assert s[0] == t[0];
      assert s == [s[0]] + s[1..] && t == [t[0]] + t[1..];
      assert multiset(s[1..]) == multiset(s) - multiset{s[0]};
      assert multiset(t[1..]) == multiset(t) - multiset{t[0]};
      DescendingUnique(s[1..], t[1..]);
    }
  }

  /** The position of a largest element of a[from..]. */
  method IndexOfMax(a: array<int>, from: nat) returns (best: nat)
    requires from < a.Length
    ensures from <= best < a.Length
    ensures forall m :: from <= m < a.Length ==> a[best] >= a[m]
  {
    best := from;
    for j := from + 1 to a.Length
      invariant from <= best < a.Length
      invariant forall m :: from <= m < j ==> a[best] >= a[m]
    {
      if a[j] > a[best] {
        best := j;
      }
    }
  }

  /** The first i positions hold the i largest elements of s, in descending order. */
  ghost predicate SelectedUpTo(s: seq<int>, i: nat) {
    && i <= |s|
    && (forall k :: 0 < k < i ==> s[k - 1] >= s[k])
    && (forall k, m :: 0 <= k < i <= m < |s| ==> s[k] >= s[m])
  }

  /** Swapping a largest remaining element into position i extends the selected prefix by one. */
  lemma SelectionStep(before: seq<int>, i: nat, best: nat)
    requires i <= best < |before| && SelectedUpTo(before, i)
    requires forall m :: i <= m < |before| ==> before[best] >= before[m]
    ensures var after := before[i := before[best]][best := before[i]];
      SelectedUpTo(after, i + 1) && multiset(after) == multiset(before)
  {
  }

  /** `versions.sort(reverse=True)`, in place, by selection of the largest remaining version. */
  method SortDescending(a: array<int>)
    modifies a
    ensures a[..] == SortDesc(old(a[..]))
  {
    var n := a.Length;
    for i := 0 to n
      invariant multiset(a[..]) == multiset(old(a[..]))
      invariant SelectedUpTo(a[..], i)
    {
      var best := IndexOfMax(a, i);
      SelectionStep(a[..], i, best);
      a[i], a[best] := a[best], a[i];
    }
    assert IsDescending(a[..]);
    DescendingUnique(a[..], SortDesc(old(a[..])));
  }

  /** Where the Python slice `s[keep:]` of a list of length n starts; a negative keep counts from the end. */
  function SliceStart(keep: int, n: nat): (start: nat)
    ensures start <= n
  {
    if keep < 0 then (if n + keep < 0 then 0 else n + keep)
    else if keep > n then n
    else keep
  }

  /** The versions kept: the first `keep` of the descending order. */
  function Retained(versions: seq<int>, keep: int): seq<int> {
    SortDesc(versions)[..SliceStart(keep, |versions|)]
  }

  /** The versions deleted, in the order their DELETE requests are sent: `sorted(versions, reverse=True)[keep:]`. */
  function Discarded(versions: seq<int>, keep: int): seq<int> {
    SortDesc(versions)[SliceStart(keep, |versions|)..]
  }

  /**
    For a non-negative keep, max(0, |versions| - keep) versions are deleted:
    all of them for keep = 0, none once keep reaches the number of versions.
  */
  lemma DiscardedCount(versions: seq<int>, keep: int)
    requires keep >= 0
    ensures |Discarded(versions, keep)| == if keep < |versions| then |versions| - keep else 0
    ensures keep == 0 ==> multiset(Discarded(versions, keep)) == multiset(versions)
    ensures keep >= |versions| ==> Discarded(versions, keep) == []
    ensures |Retained(versions, keep)| == if keep < |versions| then keep else |versions|
  {
  }

  /** Every deleted version is at most every retained one, and deletions go newest to oldest. */
  lemma DiscardedBelowRetained(versions: seq<int>, keep: int)
    ensures forall i, j :: 0 <= i < |Retained(versions, keep)| && 0 <= j < |Discarded(versions, keep)| ==>
      Discarded(versions, keep)[j] <= Retained(versions, keep)[i]
    ensures IsDescending(Discarded(versions, keep))
  {
    var s := SortDesc(versions);
    var k := SliceStart(keep, |versions|);
    forall i, j | 0 <= i < k <= j < |s|
      ensures s[j] <= s[i]
    {
      DescendingPairwise(s, i, j);
    }
  }

  /** Retained and discarded versions together are the input, nothing lost or duplicated. */
  lemma PartitionIsPermutation(versions: seq<int>, keep: int)
    ensures Retained(versions, keep) + Discarded(versions, keep) == SortDesc(versions)
    ensures multiset(Retained(versions, keep)) + multiset(Discarded(versions, keep)) == multiset(versions)
  {
  }

  /** Keeping one of the versions [3, 1, 2] retains 3 and deletes 2, then 1. */
  lemma KeepOneOfThree()
    ensures Retained([3, 1, 2], 1) == [3]
    ensures Discarded([3, 1, 2], 1) == [2, 1]
  {
  }
}
