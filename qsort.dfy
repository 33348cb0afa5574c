/**
 * The C library's `qsort`, as the quartile computation uses it: it orders the first
 * `n` elements of a buffer by a comparison key and leaves the rest alone. The result
 * is any permutation that is ordered by the key; elements with equal keys may come
 * out in any order, so the contract says no more than that.
 */
module Qsort {
  import opened Words

  /** `s` is ordered by `key` */
  ghost predicate SortedBy(s: seq<uint64>, key: uint64 -> int) {
    forall i, j :: 0 <= i < j < |s| ==> key(s[i]) <= key(s[j])
  }

  /** Exchange `a[i]` and `a[j]`; the array keeps its multiset of elements. */
  method Swap(a: array<uint64>, i: nat, j: nat)
    requires i < a.Length && j < a.Length
    modifies a
    ensures a[i] == old(a[j]) && a[j] == old(a[i])
    ensures forall k :: 0 <= k < a.Length && k != i && k != j ==> a[k] == old(a[k])
    ensures multiset(a[..]) == old(multiset(a[..]))
  {
    a[i], a[j] := a[j], a[i];
  }

  /** Sorts `a[..n]` in place by `key` (an insertion sort stands for the library's algorithm). */
  method SortByKey(a: array<uint64>, n: nat, key: uint64 -> int)
    requires n <= a.Length
    modifies a
    ensures SortedBy(a[..n], key)
    ensures multiset(a[..n]) == old(multiset(a[..n]))
    ensures a[n..] == old(a[n..])
  {
    var i := 0;
    while i < n
      invariant 0 <= i <= n
      invariant SortedBy(a[..i], key)
      invariant multiset(a[..]) == old(multiset(a[..]))
      invariant a[n..] == old(a[n..])
    {
      var j := i;
      while 0 < j && key(a[j - 1]) > key(a[j])
        invariant 0 <= j <= i
        invariant forall p, q :: 0 <= p < q <= i && p != j && q != j ==> key(a[p]) <= key(a[q])
        invariant forall q :: j < q <= i ==> key(a[j]) <= key(a[q])
        invariant multiset(a[..]) == old(multiset(a[..]))
        invariant a[n..] == old(a[n..])
      {
        Swap(a, j - 1, j);
        j := j - 1;
      }
      i := i + 1;
    }
    PrefixMultiset(a[..], old(a[..]), n);
  }

  /** Two sequences with equal multisets and equal suffixes from `n` have equal prefixes' multisets. */
  lemma PrefixMultiset(s: seq<uint64>, t: seq<uint64>, n: nat)
    requires n <= |s| == |t|
    requires multiset(s) == multiset(t) && s[n..] == t[n..]
    ensures multiset(s[..n]) == multiset(t[..n])
  {
    assert s == s[..n] + s[n..];
    assert t == t[..n] + t[n..];
    assert multiset(s) == multiset(s[..n]) + multiset(s[n..]);
    assert multiset(t) == multiset(t[..n]) + multiset(t[n..]);
    forall x ensures multiset(s[..n])[x] == multiset(t[..n])[x] {
      assert multiset(s)[x] == multiset(s[..n])[x] + multiset(s[n..])[x];
      assert multiset(t)[x] == multiset(t[..n])[x] + multiset(t[n..])[x];
    }
  }
}
