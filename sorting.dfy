/**
 * `Array.prototype.sort(compare)` as the hooks and tables use it: the array
 * is reordered in place so that no adjacent pair compares greater than zero.
 * A comparator result of NaN reads as 0, so every comparator here yields an
 * integer.
 */
module Sorting {

  /** No two values compare greater than zero in both orders. */
  ghost predicate NeverBothGreater<T(!new)>(cmp: (T, T) -> int) {
    forall x, y :: cmp(x, y) > 0 ==> cmp(y, x) <= 0
  }

  /** Every adjacent pair of `s` is in order under `cmp`. */
  ghost predicate AdjacentSorted<T>(s: seq<T>, cmp: (T, T) -> int) {
    forall i :: 0 < i < |s| ==> cmp(s[i - 1], s[i]) <= 0
  }

  /** `cmp` chains the order between the elements of `s`. */
  ghost predicate ChainsOn<T>(s: seq<T>, cmp: (T, T) -> int) {
    forall i, j, k :: 0 <= i < |s| && 0 <= j < |s| && 0 <= k < |s| && cmp(s[i], s[j]) <= 0 && cmp(s[j], s[k]) <= 0
      ==> cmp(s[i], s[k]) <= 0
  }

  /** `s` with the elements at `p` and `q` exchanged. */
  function Swapped<T>(s: seq<T>, p: nat, q: nat): (r: seq<T>)
    requires p < |s| && q < |s|
    ensures |r| == |s| && r[p] == s[q] && r[q] == s[p]
    ensures forall k :: 0 <= k < |s| && k != p && k != q ==> r[k] == s[k]
    ensures multiset(r) == multiset(s)
  {
    s[p := s[q]][q := s[p]]
  }

  /** The pairs ending at 1..i are in order, except possibly the one ending at `j`. */
  ghost predicate InOrderExcept<T>(s: seq<T>, cmp: (T, T) -> int, i: nat, j: nat)
    requires i < |s|
  {
    forall k :: 0 < k <= i && k != j ==> cmp(s[k - 1], s[k]) <= 0
  }

  /** One exchange of the insertion step keeps the step's invariant, one place further left. */
  lemma SinkStep<T(!new)>(s: seq<T>, cmp: (T, T) -> int, i: nat, j: nat)
    requires NeverBothGreater(cmp)
    requires 0 < j <= i < |s|
    requires InOrderExcept(s, cmp, i, j)
    requires j < i ==> cmp(s[j - 1], s[j + 1]) <= 0
    requires cmp(s[j - 1], s[j]) > 0
    ensures InOrderExcept(Swapped(s, j - 1, j), cmp, i, j - 1)
    ensures 0 < j - 1 ==> cmp(Swapped(s, j - 1, j)[j - 2], Swapped(s, j - 1, j)[j]) <= 0
  {
    var r := Swapped(s, j - 1, j);
    forall k | 0 < k <= i && k != j - 1 ensures cmp(r[k - 1], r[k]) <= 0 {
      if k == j {
        assert cmp(s[j], s[j - 1]) <= 0;
      } else if k == j + 1 {
        assert r[k - 1] == s[j - 1] && r[k] == s[j + 1];
      } else {
        assert r[k - 1] == s[k - 1] && r[k] == s[k];
      }
    }
    if 0 < j - 1 {
      assert r[j - 2] == s[j - 2] && r[j] == s[j - 1];
    }
  }

  /** Exchanges `a[p]` and `a[q]`. */
  method Swap<T>(a: array<T>, p: nat, q: nat)
    requires p < a.Length && q < a.Length
    modifies a
    ensures a[..] == Swapped(old(a[..]), p, q)
  {
    a[p], a[q] := a[q], a[p];
  }

  /**
   * Sorts `a` in place with `cmp` (an insertion sort that swaps only
   * neighbours comparing greater than zero): the result is a permutation of
   * the input in which no adjacent pair compares greater than zero.
   */
  method SortInPlace<T(!new)>(a: array<T>, cmp: (T, T) -> int)
    requires NeverBothGreater(cmp)
    modifies a
    ensures multiset(a[..]) == multiset(old(a[..]))
    ensures AdjacentSorted(a[..], cmp)
  {
    var i := 0;
    while i < a.Length
      invariant 0 <= i <= a.Length
      invariant forall k :: 0 < k < i ==> cmp(a[k - 1], a[k]) <= 0
      invariant multiset(a[..]) == multiset(old(a[..]))
    {
      Insert(a, cmp, i);
      i := i + 1;
    }
  }

  /** Moves `a[i]` left past every greater neighbour, so that `a[..i + 1]` is in order. */
  method Insert<T(!new)>(a: array<T>, cmp: (T, T) -> int, i: nat)
    requires NeverBothGreater(cmp)
    requires i < a.Length
    requires forall k :: 0 < k < i ==> cmp(a[k - 1], a[k]) <= 0
    modifies a
    ensures multiset(a[..]) == multiset(old(a[..]))
    ensures forall k :: 0 < k <= i ==> cmp(a[k - 1], a[k]) <= 0
  {
    var j := i;
    assert InOrderExcept(a[..], cmp, i, j);
    while j > 0 && cmp(a[j - 1], a[j]) > 0
      invariant 0 <= j <= i
      invariant InOrderExcept(a[..], cmp, i, j)
      invariant 0 < j < i ==> cmp(a[j - 1], a[j + 1]) <= 0
      invariant multiset(a[..]) == multiset(old(a[..]))
    {
      ghost var before := a[..];
      assert before[j - 1] == a[j - 1] && before[j] == a[j];
      assert j < i ==> before[j + 1] == a[j + 1];
      SinkStep(before, cmp, i, j);
      Swap(a, j - 1, j);
      assert a[..] == Swapped(before, j - 1, j);
      j := j - 1;
    }
    ghost var after := a[..];
    assert j > 0 ==> after[j - 1] == a[j - 1] && after[j] == a[j];
    SinkDone(after, cmp, i, j);
  }

  /** The insertion step stops where its exceptional pair is in order, or at the front. */
  lemma SinkDone<T>(s: seq<T>, cmp: (T, T) -> int, i: nat, j: nat)
    requires j <= i < |s|
    requires InOrderExcept(s, cmp, i, j)
    requires j == 0 || cmp(s[j - 1], s[j]) <= 0
    ensures forall k :: 0 < k <= i ==> cmp(s[k - 1], s[k]) <= 0
  {
  }

  /** Where the comparator chains, adjacent order is order between every two positions. */
  lemma {:induction false} AdjacentSortedOrdersAll<T>(s: seq<T>, cmp: (T, T) -> int, i: int, j: int)
    requires AdjacentSorted(s, cmp) && ChainsOn(s, cmp)
    requires 0 <= i < j < |s|
    ensures cmp(s[i], s[j]) <= 0
    decreases j - i
  {
    if i + 1 < j {
      AdjacentSortedOrdersAll(s, cmp, i, j - 1);
      assert cmp(s[j - 1], s[j]) <= 0;
    }
  }
}
