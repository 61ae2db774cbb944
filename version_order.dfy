/**
 * `runtimeVersions.sort((a, b) => parseInt(a) - parseInt(b))`: the
 * collected versions put in ascending numeric order, in place.
 *
 * The versions are the decimal strings of non-negative integers, and
 * `Text.ComparatorIsNumeric` shows the comparator orders such strings as
 * the integers themselves, so the array here holds the integers.
 */
module VersionOrder {
  import opened Sequences

  /** Non-decreasing. */
  predicate Sorted(s: seq<nat>) {
    forall p, q :: 0 <= p < q < |s| ==> s[p] <= s[q]
  }

  /** Strictly increasing. */
  predicate Ascending(s: seq<nat>) {
    forall p, q :: 0 <= p < q < |s| ==> s[p] < s[q]
  }

  /**
   * The distinct versions of a sorted list, in first-occurrence order, are
   * strictly increasing: the order in which a JavaScript object enumerates
   * integer-like keys.
   */
  lemma {:induction false} DedupOfSortedIsAscending(s: seq<nat>)
    requires Sorted(s)
    ensures Ascending(Dedup(s))
    decreases |s|
  {
    if s != [] {
      var init, x := s[..|s| - 1], s[|s| - 1];
      assert s == init + [x];
      DedupOfSortedIsAscending(init);
      var d := Dedup(init);
      forall p | 0 <= p < |d| ensures d[p] <= x {
        assert d[p] in init;
      }
    }
  }

  method Swap(a: array<nat>, i: nat, j: nat)
    requires i < a.Length && j < a.Length
    modifies a
    ensures a[i] == old(a[j]) && a[j] == old(a[i])
    ensures forall k :: 0 <= k < a.Length && k != i && k != j ==> a[k] == old(a[k])
    ensures multiset(a[..]) == multiset(old(a[..]))
  {
    a[i], a[j] := a[j], a[i];
  }

  /**
   * Sorts `a` ascending. The engine only relies on the outcome, a sorted
   * permutation of the input, which `SortedPermutationUnique` shows is the
   * same whatever algorithm the JavaScript engine uses.
   */
  method SortVersions(a: array<nat>)
    modifies a
    ensures Sorted(a[..])
    ensures multiset(a[..]) == multiset(old(a[..]))
  {
    if a.Length == 0 {
      return;
    }
    var i := 1;
    while i < a.Length
      invariant 1 <= i <= a.Length
      invariant forall p, q :: 0 <= p < q < i ==> a[p] <= a[q]
      invariant multiset(a[..]) == multiset(old(a[..]))
    {
      var j := i;
      while j > 0 && a[j - 1] > a[j]
        invariant 0 <= j <= i
        invariant forall p, q :: 0 <= p < q <= i && q != j ==> a[p] <= a[q]
        invariant multiset(a[..]) == multiset(old(a[..]))
      {
        Swap(a, j - 1, j);
        j := j - 1;
      }
      i := i + 1;
    }
  }

  /** The first element of a sorted sequence is its least. */
  lemma SortedHeadIsLeast(s: seq<nat>, x: nat)
    requires Sorted(s) && x in s
    ensures s[0] <= x
  {
  }

  lemma SortedTail(s: seq<nat>)
    requires s != [] && Sorted(s)
    ensures Sorted(s[1..])
  {
  }

  /**
   * Two sorted sequences with the same elements (counted with
   * multiplicity) are equal: sorting is deterministic, and sorting an
   * already sorted sequence returns it unchanged.
   */
  lemma {:induction false} SortedPermutationUnique(a: seq<nat>, b: seq<nat>)
    requires Sorted(a) && Sorted(b)
    requires multiset(a) == multiset(b)
    ensures a == b
    decreases |a|
  {
    if a == [] {
      assert |b| == |multiset(b)| == 0;
    } else {
      assert |b| == |multiset(b)| == |multiset(a)| == |a|;
      assert a[0] in multiset(b) && b[0] in multiset(a);
      SortedHeadIsLeast(b, a[0]);
      SortedHeadIsLeast(a, b[0]);
      var x, a', b' := a[0], a[1..], b[1..];
      assert b[0] == x;
      assert a == [x] + a' && b == [x] + b';
      assert multiset(a) == multiset{x} + multiset(a');
      assert multiset(b) == multiset{x} + multiset(b');
      assert multiset(a') == multiset(a) - multiset{x};
      assert multiset(b') == multiset(b) - multiset{x};
      SortedTail(a);
      SortedTail(b);
      SortedPermutationUnique(a[1..], b[1..]);
    }
  }
}
