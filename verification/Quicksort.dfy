/** Quicksort on a slice of a global array, with the first element as pivot. */
module Quicksort {

  ghost predicate Sorted(s: seq<int>) {
    forall i, j :: 0 <= i < j < |s| ==> s[i] <= s[j]
  }

  /** `t` is `s` with the slice [lo, hi) rearranged. */
  ghost predicate Rearranged(s: seq<int>, t: seq<int>, lo: int, hi: int)
    requires 0 <= lo <= hi <= |s|
  {
    && |t| == |s|
    && t[..lo] == s[..lo] && t[hi..] == s[hi..]
    && multiset(t[lo..hi]) == multiset(s[lo..hi])
  }

  lemma RearrangedTrans(s: seq<int>, t: seq<int>, u: seq<int>, lo: int, hi: int)
    requires 0 <= lo <= hi <= |s| && Rearranged(s, t, lo, hi) && Rearranged(t, u, lo, hi)
    ensures Rearranged(s, u, lo, hi)
  {
  }

  /** Rearranging part of a slice rearranges the slice. */
  lemma RearrangedWiden(s: seq<int>, t: seq<int>, lo: int, i: int, k: int, hi: int)
    requires 0 <= lo <= i <= k <= hi <= |s| && Rearranged(s, t, i, k)
    ensures Rearranged(s, t, lo, hi)
  {
    assert t[..lo] == t[..i][..lo] && s[..lo] == s[..i][..lo];
    assert t[hi..] == t[k..][hi - k..] && s[hi..] == s[k..][hi - k..];
    assert t[lo..i] == t[..i][lo..] && s[lo..i] == s[..i][lo..];
    assert t[k..hi] == t[k..][..hi - k] && s[k..hi] == s[k..][..hi - k];
    assert s[lo..hi] == s[lo..i] + s[i..k] + s[k..hi];
    assert t[lo..hi] == t[lo..i] + t[i..k] + t[k..hi];
  }

  lemma SwapRearranges(s: seq<int>, i: int, j: int, lo: int, hi: int)
    requires 0 <= lo <= i < hi <= |s| && lo <= j < hi
    ensures Rearranged(s, s[i := s[j]][j := s[i]], lo, hi)
  {
    var t := s[i := s[j]][j := s[i]];
    assert t[lo..hi] == s[lo..hi][i - lo := s[j]][j - lo := s[i]];
    assert s[lo..hi][i - lo] == s[i] && s[lo..hi][j - lo] == s[j];
  }

  class Sorter {
    const a: array<int>

    constructor (a: array<int>)
      ensures this.a == a
    {
      this.a := a;
    }

    /** `swap`, of two positions of the slice being partitioned; `s` is the array before. */
    method Swap(i: int, j: int, ghost s: seq<int>, ghost lo: int, ghost hi: int)
      requires 0 <= lo <= i < hi <= a.Length && lo <= j < hi
      requires |s| == a.Length && Rearranged(s, a[..], lo, hi)
      modifies a
      ensures a[i] == old(a[j]) && a[j] == old(a[i])
      ensures forall k :: 0 <= k < a.Length && k != i && k != j ==> a[k] == old(a[k])
      ensures Rearranged(s, a[..], lo, hi)
    {
      ghost var t := a[..];
      SwapRearranges(t, i, j, lo, hi);
      var tmp := a[i];
      a[i] := a[j];
      a[j] := tmp;
      assert a[..] == t[i := t[j]][j := t[i]];
      RearrangedTrans(s, t, a[..], lo, hi);
    }

    /** `partition`: the pivot ends at the returned index, smaller elements before it, the
        others behind it; only the slice is rearranged. */
    method Partition(left: int, right: int) returns (index: int)
      requires 0 <= left < right < a.Length
      modifies a
      ensures left <= index <= right && a[index] == old(a[left])
      ensures forall i :: left <= i < index ==> a[i] < a[index]
      ensures forall i :: index < i <= right ==> a[index] <= a[i]
      ensures Rearranged(old(a[..]), a[..], left, right + 1)
    {
      var pivotIndex := left;
      var pivotValue := a[pivotIndex];
      index := left;
      ghost var s := a[..];
      Swap(pivotIndex, right, s, left, right + 1);
      var i := left;
      while i < right
        invariant left <= index <= i <= right
        invariant a[right] == pivotValue
        invariant forall k :: left <= k < index ==> a[k] < pivotValue
        invariant forall k :: index <= k < i ==> a[k] >= pivotValue
        invariant Rearranged(s, a[..], left, right + 1)
      {
        if a[i] < pivotValue {
          Swap(i, index, s, left, right + 1);
          index := index + 1;
        }
        i := i + 1;
      }
      Swap(right, index, s, left, right + 1);
    }

    /** `quicksort`: the slice is sorted in place, and nothing else changes. */
    method Sort(left: int, right: int)
      requires 0 <= left && right < a.Length && left <= right + 1
      modifies a
      ensures Sorted(a[left..right + 1])
      ensures Rearranged(old(a[..]), a[..], left, right + 1)
      decreases right - left
    {
      if left >= right {
        return;
      }
      ghost var s := a[..];
      var index := Partition(left, right);
      ghost var t := a[..];
      Sort(left, index - 1);
      ghost var u := a[..];
      assert a[left..index] == u[left..index];
      Sort(index + 1, right);
      ghost var v := a[..];
      assert a[index + 1..right + 1] == v[index + 1..right + 1] && a[left..right + 1] == v[left..right + 1];
      SortedHalves(s, t, u, v, left, index, right);
    }
  }

  /** What a sorted and rearranged slice means for the whole array. */
  lemma SortedMeans(s: seq<int>, t: seq<int>, lo: int, hi: int)
    requires 0 <= lo <= hi <= |s| && Rearranged(s, t, lo, hi) && Sorted(t[lo..hi])
    ensures multiset(t) == multiset(s) && forall i, j :: lo <= i < j < hi ==> t[i] <= t[j]
  {
    forall i, j | lo <= i < j < hi ensures t[i] <= t[j] {
      assert t[lo..hi][i - lo] <= t[lo..hi][j - lo];
    }
    assert s == s[..lo] + s[lo..hi] + s[hi..] && t == t[..lo] + t[lo..hi] + t[hi..];
  }

  lemma SortedHalves(s: seq<int>, t: seq<int>, u: seq<int>, v: seq<int>, left: int, index: int, right: int)
    requires 0 <= left <= index <= right < |s|
    requires Rearranged(s, t, left, right + 1)
    requires forall i :: left <= i < index ==> t[i] < t[index]
    requires forall i :: index < i <= right ==> t[index] <= t[i]
    requires Rearranged(t, u, left, index) && Sorted(u[left..index])
    requires Rearranged(u, v, index + 1, right + 1) && Sorted(v[index + 1..right + 1])
    ensures Sorted(v[left..right + 1]) && Rearranged(s, v, left, right + 1)
  {
    RearrangedTwice(s, t, u, v, left, index, right);
    var p := t[index];
    assert u[index] == u[index..][0] == t[index..][0] == p;
    LowerHalf(t, u, left, index, p);
    UpperHalf(t, u, v, index, right, p);
    SamePrefix(u, v, left, index);
    AroundPivot(v, left, index, right);
  }

  lemma RearrangedTwice(s: seq<int>, t: seq<int>, u: seq<int>, v: seq<int>, left: int, index: int, right: int)
    requires 0 <= left <= index <= right < |s|
    requires Rearranged(s, t, left, right + 1) && Rearranged(t, u, left, index)
    requires Rearranged(u, v, index + 1, right + 1)
    ensures Rearranged(s, v, left, right + 1)
  {
    RearrangedWiden(t, u, left, left, index, right + 1);
    RearrangedWiden(u, v, left, index + 1, right + 1, right + 1);
    RearrangedTrans(s, t, u, left, right + 1);
    RearrangedTrans(s, u, v, left, right + 1);
  }

  lemma SamePrefix(u: seq<int>, v: seq<int>, left: int, index: int)
    requires 0 <= left <= index < |u| == |v| && v[..index + 1] == u[..index + 1]
    ensures v[left..index] == u[left..index] && forall i :: left <= i <= index ==> v[i] == u[i]
  {
    forall i | 0 <= i <= index ensures v[i] == u[i] {
      assert v[i] == v[..index + 1][i] && u[i] == u[..index + 1][i];
    }
  }

  lemma AroundPivot(v: seq<int>, left: int, index: int, right: int)
    requires 0 <= left <= index <= right < |v|
    requires forall i :: left <= i < index ==> v[i] < v[index]
    requires forall i :: index < i <= right ==> v[index] <= v[i]
    requires Sorted(v[left..index]) && Sorted(v[index + 1..right + 1])
    ensures Sorted(v[left..right + 1])
  {
    SortedSlice(v, left, index);
    SortedSlice(v, index + 1, right + 1);
  }

  lemma SortedSlice(s: seq<int>, lo: int, hi: int)
    requires 0 <= lo <= hi <= |s| && Sorted(s[lo..hi])
    ensures forall i, j :: lo <= i < j < hi ==> s[i] <= s[j]
  {
    forall i, j | lo <= i < j < hi ensures s[i] <= s[j] {
      assert s[i] == s[lo..hi][i - lo] && s[j] == s[lo..hi][j - lo];
    }
  }

  lemma LowerHalf(t: seq<int>, u: seq<int>, left: int, index: int, p: int)
    requires 0 <= left <= index <= |t| && Rearranged(t, u, left, index)
    requires forall i :: left <= i < index ==> t[i] < p
    ensures forall i :: left <= i < index ==> u[i] < p
  {
    forall i | left <= i < index ensures u[i] < p {
      assert u[i] in multiset(u[left..index]) by { assert u[i] == u[left..index][i - left]; }
      assert u[i] in t[left..index];
      var k :| 0 <= k < |t[left..index]| && t[left..index][k] == u[i];
      assert t[left + k] == u[i];
    }
  }

  lemma UpperHalf(t: seq<int>, u: seq<int>, v: seq<int>, index: int, right: int, p: int)
    requires 0 <= index <= right < |t| && |u| == |t| && u[index..] == t[index..]
    requires Rearranged(u, v, index + 1, right + 1)
    requires forall i :: index < i <= right ==> p <= t[i]
    ensures forall i :: index < i <= right ==> p <= v[i]
  {
    forall i | index < i <= right ensures p <= v[i] {
      var w := v[index + 1..right + 1];
      assert v[i] in multiset(w) by { assert v[i] == w[i - index - 1]; }
      assert v[i] in u[index + 1..right + 1];
      var k :| 0 <= k < |u[index + 1..right + 1]| && u[index + 1..right + 1][k] == v[i];
      assert u[index + 1 + k] == u[index..][k + 1] == t[index..][k + 1] == t[index + 1 + k] == v[i];
    }
  }
}
