/** The order both autoloaders keep their rules in: longest class template
    first. `sortLengthDesc` is the `usort` comparator; `register` appends a
    rule and re-sorts, which on an already sorted list amounts to inserting
    the new rule after every rule at least as long (the sort is stable). */
module RuleOrder {

  /** `Autoload::sortLengthDesc` on the two rules' lengths. */
  function SortLengthDesc(length1: int, length2: int): (r: int)
    ensures r == -1 || r == 0 || r == 1
    ensures r < 0 <==> length1 > length2
    ensures r == 0 <==> length1 == length2
  {
    if length1 > length2 then -1
    else if length1 < length2 then 1
    else 0
  }

  /** The comparator is a total preorder, as `usort` requires: swapping the
      arguments negates it, and "not after" is transitive. */
  lemma ComparatorLaws(a: int, b: int, c: int)
    ensures SortLengthDesc(a, b) == -SortLengthDesc(b, a)
    ensures SortLengthDesc(a, b) <= 0 && SortLengthDesc(b, c) <= 0 ==> SortLengthDesc(a, c) <= 0
  {
  }

  /** A list sorted by the comparator: no rule comes after one it should
      precede. */
  predicate Sorted(lengths: seq<int>) {
    forall i, j :: 0 <= i < j < |lengths| ==> SortLengthDesc(lengths[i], lengths[j]) <= 0
  }

  /** Sorted by the comparator means longest first. */
  lemma SortedIsDescending(lengths: seq<int>)
    ensures Sorted(lengths) <==> forall i, j :: 0 <= i < j < |lengths| ==> lengths[i] >= lengths[j]
  {
  }

  /** Where a stable sort places a rule of length `n` appended to a sorted
      list: after every rule at least as long. */
  function InsertionPoint(lengths: seq<int>, n: int): (k: nat)
    requires Sorted(lengths)
    ensures k <= |lengths|
    ensures forall i :: 0 <= i < k ==> lengths[i] >= n
    ensures forall i :: k <= i < |lengths| ==> lengths[i] < n
    decreases |lengths|
  {
    if lengths == [] || lengths[0] < n then 0
    else 1 + InsertionPoint(lengths[1..], n)
  }

  /** The insertion point is the only index with every rule before it at
      least as long and every rule from it on shorter. */
  lemma {:induction false} InsertionPointUnique(lengths: seq<int>, n: int, k: nat)
    requires Sorted(lengths) && k <= |lengths|
    requires forall i :: 0 <= i < k ==> lengths[i] >= n
    requires forall i :: k <= i < |lengths| ==> lengths[i] < n
    ensures k == InsertionPoint(lengths, n)
    decreases |lengths|
  {
    if lengths != [] && lengths[0] >= n {
      assert k > 0;
      InsertionPointUnique(lengths[1..], n, k - 1);
    }
  }

  /** The search for that point, comparing with `sortLengthDesc` as the
      sort does. */
  method FindInsertionPoint(lengths: seq<int>, n: int) returns (k: nat)
    requires Sorted(lengths)
    ensures k == InsertionPoint(lengths, n)
  {
    k := 0;
    while k < |lengths| && SortLengthDesc(lengths[k], n) <= 0
      invariant k <= |lengths|
      invariant forall i :: 0 <= i < k ==> lengths[i] >= n
    {
      k := k + 1;
    }
    forall i | k <= i < |lengths|
      ensures lengths[i] < n
    {
      assert SortLengthDesc(lengths[k], lengths[i]) <= 0 || k == i;
    }
    InsertionPointUnique(lengths, n, k);
  }

  /** Inserting at that point keeps the list sorted. */
  lemma InsertSorted(lengths: seq<int>, n: int)
    requires Sorted(lengths)
    ensures var k := InsertionPoint(lengths, n); Sorted(lengths[..k] + [n] + lengths[k..])
  {
    var k := InsertionPoint(lengths, n);
    var s := lengths[..k] + [n] + lengths[k..];
    forall i, j | 0 <= i < j < |s|
      ensures s[i] >= s[j]
    {
      if j < k {
        assert s[i] == lengths[i] && s[j] == lengths[j];
      } else if j == k {
        assert s[i] == lengths[i];
      } else if i < k {
        assert s[i] == lengths[i] && s[j] == lengths[j - 1];
      } else if i == k {
        assert s[j] == lengths[j - 1];
      } else {
        assert s[i] == lengths[i - 1] && s[j] == lengths[j - 1];
      }
    }
  }

  /** A sorted list puts the longest template first among any set of
      candidates: the first candidate is at least as long as every other. */
  lemma FirstIsLongest(lengths: seq<int>, k: nat, j: nat)
    requires Sorted(lengths) && k <= j < |lengths|
    ensures lengths[k] >= lengths[j]
  {
    if k < j {
      assert SortLengthDesc(lengths[k], lengths[j]) <= 0;
    }
  }
}
