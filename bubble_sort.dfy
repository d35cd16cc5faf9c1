/** `bubbleSort` of the sorting visualiser: adjacent swaps over shrinking
    passes, counting every comparison in the caller's step counter. */
module BubbleSorting {

  /** s is in non-decreasing order. */
  predicate Sorted(s: seq<int>) {
    forall i, j :: 0 <= i < j < |s| ==> s[i] <= s[j]
  }

  /** Comparisons made by the first `passes` passes over n elements: pass p
      compares n - p - 1 adjacent pairs. */
  function PassSteps(n: int, passes: nat): int {
    if passes == 0 then 0 else PassSteps(n, passes - 1) + (n - (passes - 1) - 1)
  }

  /** The number of comparisons a full sort of n elements makes: the n - 1
      passes, or none when n <= 1. */
  function TotalSteps(n: int): int {
    if n <= 1 then 0 else PassSteps(n, n - 1)
  }

  /** A full sort makes n(n-1)/2 comparisons, and none for n <= 1. */
  lemma TotalStepsClosedForm(n: int)
    ensures n <= 1 ==> TotalSteps(n) == 0
    ensures n >= 1 ==> TotalSteps(n) == n * (n - 1) / 2
  {
    if n >= 1 {
      PassPrefix(n, n - 1);
    }
  }

  lemma {:induction false} PassPrefix(n: int, passes: nat)
    ensures 2 * PassSteps(n, passes) == passes * (2 * n - passes - 1)
  {
    if passes > 0 {
      PassPrefix(n, passes - 1);
    }
  }

  /** After a pass: s[k..n) is in order and holds the largest elements of
      s[0..n), each at least every element before k. */
  predicate SortedTail(s: seq<int>, k: int, n: int)
    requires 0 <= k <= n <= |s|
  {
    && (forall i, j :: k <= i < j < n ==> s[i] <= s[j])
    && (forall i, j :: 0 <= i < k <= j < n ==> s[i] <= s[j])
  }

  /** One comparison of a pass: swap s[j] and s[j + 1] when out of order. */
  function CompareSwap(s: seq<int>, j: int): (r: seq<int>)
    requires 0 <= j && j + 1 < |s|
    ensures |r| == |s| && r[j] <= r[j + 1] && multiset(r) == multiset(s)
    ensures forall k :: 0 <= k < |s| && k != j && k != j + 1 ==> r[k] == s[k]
    ensures r[j] == (if s[j] <= s[j + 1] then s[j] else s[j + 1])
    ensures r[j + 1] == (if s[j] <= s[j + 1] then s[j + 1] else s[j])
  {
    if s[j] > s[j + 1] then
      assert s[j := s[j + 1]][j + 1 := s[j]] == s[..j] + [s[j + 1], s[j]] + s[j + 2..];
      assert s == s[..j] + [s[j], s[j + 1]] + s[j + 2..];
      s[j := s[j + 1]][j + 1 := s[j]]
    else s
  }

  /** Pass i at position j: the tail from n - i is settled and s[j] is the
      largest of s[0..j]. */
  predicate InPass(s: seq<int>, n: int, i: int, j: int)
    requires 0 <= j < n - i <= n <= |s|
  {
    SortedTail(s, n - i, n) && forall k :: 0 <= k < j ==> s[k] <= s[j]
  }

  /** s agrees with s0 from n on: the part `bubbleSort` does not touch. */
  predicate Outside(s: seq<int>, s0: seq<int>, n: int) {
    |s| == |s0| && forall k :: (if n < 0 then 0 else n) <= k < |s| ==> s[k] == s0[k]
  }

  lemma SwapInside(s: seq<int>, s0: seq<int>, n: int, j: int)
    requires 0 <= j && j + 1 < n <= |s| && Outside(s, s0, n)
    ensures Outside(CompareSwap(s, j), s0, n)
  {
  }

  /** A comparison carries the largest element one step further. */
  lemma PassStep(s: seq<int>, n: int, i: int, j: int)
    requires 0 <= i && 0 <= j && j + 1 < n - i && n <= |s| && InPass(s, n, i, j)
    ensures InPass(CompareSwap(s, j), n, i, j + 1)
  {
  }

  /** At the end of pass i the largest element sits at n - i - 1. */
  lemma PassDone(s: seq<int>, n: int, i: int)
    requires 0 <= i && 0 <= n - i - 1 && n <= |s| && InPass(s, n, i, n - i - 1)
    ensures SortedTail(s, n - i - 1, n)
  {
  }

  /** `bubbleSort(arr, n, &sorted)`: sorts arr[0..n) in place and returns the
      counter advanced by one per comparison. */
  method BubbleSort(arr: array<int>, n: int, sorted0: int) returns (sorted: int)
    requires n <= arr.Length
    modifies arr
    ensures Sorted(arr[..if n < 0 then 0 else n])
    ensures multiset(arr[..]) == multiset(old(arr[..]))
    ensures Outside(arr[..], old(arr[..]), n)
    ensures sorted == sorted0 + TotalSteps(n)
  {
    sorted := sorted0;
    var i := 0;
    while i < n - 1
      invariant 0 <= i <= (if n >= 1 then n - 1 else 0)
      invariant multiset(arr[..]) == multiset(old(arr[..]))
      invariant Outside(arr[..], old(arr[..]), n)
      invariant n >= 1 ==> SortedTail(arr[..], n - i, n)
      invariant sorted == sorted0 + PassSteps(n, i)
    {
      sorted := BubblePass(arr, n, i, sorted);
      i := i + 1;
    }
    if n >= 1 {
      assert SortedTail(arr[..], 1, n);
    }
  }

  /** Pass i of `bubbleSort` (its inner loop): compares each adjacent pair of
      arr[0..n - i), swapping those out of order, which carries the largest of
      them to n - i - 1; one step is counted per comparison. */
  method BubblePass(arr: array<int>, n: int, i: int, sorted0: int) returns (sorted: int)
    requires 0 <= i < n - 1 && n <= arr.Length && SortedTail(arr[..], n - i, n)
    modifies arr
    ensures SortedTail(arr[..], n - i - 1, n)
    ensures multiset(arr[..]) == multiset(old(arr[..]))
    ensures Outside(arr[..], old(arr[..]), n)
    ensures sorted == sorted0 + (n - i - 1)
  {
    sorted := sorted0;
    var j := 0;
    while j < n - i - 1
      invariant 0 <= j <= n - i - 1
      invariant multiset(arr[..]) == multiset(old(arr[..]))
      invariant Outside(arr[..], old(arr[..]), n)
      invariant InPass(arr[..], n, i, j)
      invariant sorted == sorted0 + j
    {
      ghost var before := arr[..];
      PassStep(before, n, i, j);
      SwapInside(before, old(arr[..]), n, j);
      if arr[j] > arr[j + 1] {
        arr[j], arr[j + 1] := arr[j + 1], arr[j];
        assert arr[..] == before[j := before[j + 1]][j + 1 := before[j]];
      }
      sorted := sorted + 1;
      j := j + 1;
    }
    PassDone(arr[..], n, i);
  }
}
