/**
 * The exchange sorts that Shortest-Job-First and Priority scheduling run before the
 * dispatch loop: for every i < j, swap positions i and j whenever the key at i is
 * greater than the key at j. The result is sorted and a permutation of the input, but
 * ties are not kept in input order.
 */
module Sorting {
  import opened Processes

  /** The field a sort orders by. */
  datatype SortKey = ByBurstTime | ByPriority

  function Key(p: ProcessInfo, key: SortKey): int {
    match key
    case ByBurstTime => p.burstTime
    case ByPriority => p.priority
  }

  /** Ascending by `key` (for priority: lower number first). */
  predicate SortedBy(s: seq<ProcessInfo>, key: SortKey) {
    forall i, j :: 0 <= i < j < |s| ==> Key(s[i], key) <= Key(s[j], key)
  }

  /** One comparison of the inner loop: swap i and j when they are out of order. */
  function SwapIfGreater(s: seq<ProcessInfo>, i: nat, j: nat, key: SortKey): seq<ProcessInfo>
    requires i < j < |s|
  {
    if Key(s[i], key) > Key(s[j], key) then s[i := s[j]][j := s[i]] else s
  }

  /** The inner loop from position j on, comparing everything after i with position i. */
  function InnerPass(s: seq<ProcessInfo>, i: nat, j: nat, key: SortKey): (r: seq<ProcessInfo>)
    requires i < j <= |s|
    ensures |r| == |s|
    decreases |s| - j
  {
    if j == |s| then s else InnerPass(SwapIfGreater(s, i, j, key), i, j + 1, key)
  }

  /** The outer loop from position i on. */
  function OuterPasses(s: seq<ProcessInfo>, i: nat, key: SortKey): (r: seq<ProcessInfo>)
    requires i <= |s|
    ensures |r| == |s|
    decreases |s| - i
  {
    if i + 1 >= |s| then s else OuterPasses(InnerPass(s, i, i + 1, key), i + 1, key)
  }

  /** What the nested loops of the exchange sort leave in the table. */
  function ExchangeSort(s: seq<ProcessInfo>, key: SortKey): (r: seq<ProcessInfo>)
    ensures |r| == |s|
  {
    OuterPasses(s, 0, key)
  }

  /** A conditional swap keeps the records and their attributes, as multisets. */
  lemma SwapIfGreaterPermutes(s: seq<ProcessInfo>, i: nat, j: nat, key: SortKey)
    requires i < j < |s|
    ensures multiset(SwapIfGreater(s, i, j, key)) == multiset(s)
    ensures multiset(AllAttributes(SwapIfGreater(s, i, j, key))) == multiset(AllAttributes(s))
  {
    if Key(s[i], key) > Key(s[j], key) {
      var t := AllAttributes(s);
      assert AllAttributes(s[i := s[j]][j := s[i]]) == t[i := t[j]][j := t[i]];
    }
  }

  /** An inner pass keeps the records and their attributes, as multisets. */
  lemma {:induction false} InnerPassPermutes(s: seq<ProcessInfo>, i: nat, j: nat, key: SortKey)
    requires i < j <= |s|
    ensures multiset(InnerPass(s, i, j, key)) == multiset(s)
    ensures multiset(AllAttributes(InnerPass(s, i, j, key))) == multiset(AllAttributes(s))
    decreases |s| - j
  {
    if j < |s| {
      SwapIfGreaterPermutes(s, i, j, key);
      InnerPassPermutes(SwapIfGreater(s, i, j, key), i, j + 1, key);
    }
  }

  /**
   * An inner pass leaves everything before i alone, puts at i a key no greater than any
   * key after it, and keeps every key before i no greater than every key from i on.
   */
  lemma {:induction false} InnerPassMinimum(s: seq<ProcessInfo>, i: nat, j: nat, key: SortKey)
    requires i < j <= |s|
    requires forall k :: i < k < j ==> Key(s[i], key) <= Key(s[k], key)
    requires forall m, k :: 0 <= m < i <= k < |s| ==> Key(s[m], key) <= Key(s[k], key)
    ensures var r := InnerPass(s, i, j, key);
            r[..i] == s[..i] &&
            (forall k :: i < k < |r| ==> Key(r[i], key) <= Key(r[k], key)) &&
            (forall m, k :: 0 <= m < i <= k < |r| ==> Key(r[m], key) <= Key(r[k], key))
    decreases |s| - j
  {
    if j < |s| {
      var t := SwapIfGreater(s, i, j, key);
      assert t[..i] == s[..i];
      InnerPassMinimum(t, i, j + 1, key);
    }
  }

  /**
   * The outer passes from i on sort the table when the first i positions are already
   * sorted and no key after them is smaller than a key among them.
   */
  lemma {:induction false} OuterPassesSorted(s: seq<ProcessInfo>, i: nat, key: SortKey)
    requires i <= |s|
    requires SortedBy(s[..i], key)
    requires forall m, k :: 0 <= m < i <= k < |s| ==> Key(s[m], key) <= Key(s[k], key)
    ensures SortedBy(OuterPasses(s, i, key), key)
    decreases |s| - i
  {
    if i + 1 < |s| {
      InnerPassMinimum(s, i, i + 1, key);
      var r := InnerPass(s, i, i + 1, key);
      var p := r[..i + 1];
      assert SortedBy(p, key) by {
        forall a, b | 0 <= a < b < |p| ensures Key(p[a], key) <= Key(p[b], key) {
          assert p[a] == r[a] && p[b] == r[b];
          if b < i {
            assert r[a] == r[..i][a] == s[..i][a] && r[b] == r[..i][b] == s[..i][b];
          }
        }
      }
      OuterPassesSorted(r, i + 1, key);
    } else {
      forall a, b | 0 <= a < b < |s| ensures Key(s[a], key) <= Key(s[b], key) {
        if b < i {
          assert s[..i][a] == s[a] && s[..i][b] == s[b];
        }
      }
    }
  }

  /** The exchange sort leaves the table sorted ascending by its key. */
  lemma ExchangeSortSorted(s: seq<ProcessInfo>, key: SortKey)
    ensures SortedBy(ExchangeSort(s, key), key)
  {
    OuterPassesSorted(s, 0, key);
  }

  /** The outer passes keep the records and their attributes, as multisets. */
  lemma {:induction false} OuterPassesPermute(s: seq<ProcessInfo>, i: nat, key: SortKey)
    requires i <= |s|
    ensures multiset(OuterPasses(s, i, key)) == multiset(s)
    ensures multiset(AllAttributes(OuterPasses(s, i, key))) == multiset(AllAttributes(s))
    decreases |s| - i
  {
    if i + 1 < |s| {
      InnerPassPermutes(s, i, i + 1, key);
      OuterPassesPermute(InnerPass(s, i, i + 1, key), i + 1, key);
    }
  }

  /** The exchange sort only reorders the table: records and attributes are the same multisets. */
  lemma ExchangeSortPermutes(s: seq<ProcessInfo>, key: SortKey)
    ensures multiset(ExchangeSort(s, key)) == multiset(s)
    ensures multiset(AllAttributes(ExchangeSort(s, key))) == multiset(AllAttributes(s))
  {
    OuterPassesPermute(s, 0, key);
  }

  /**
   * The nested exchange loops over `a[..n]` (cse325.c:238-246 and 251-259, which differ
   * only in the key): the prefix becomes the exchange-sorted table, sorted by the key and
   * a permutation of what was there; the rest of the array is untouched.
   */
  method ExchangeSortInPlace(a: array<ProcessInfo>, n: nat, key: SortKey)
    requires n <= a.Length
    modifies a
    ensures a[..n] == ExchangeSort(old(a[..n]), key)
    ensures SortedBy(a[..n], key)
    ensures multiset(a[..n]) == multiset(old(a[..n]))
    ensures a[n..] == old(a[n..])
  {
    var i := 0;
    while i < n - 1
      invariant 0 <= i <= n
      invariant OuterPasses(a[..n], i, key) == ExchangeSort(old(a[..n]), key)
      invariant a[n..] == old(a[n..])
    {
      InnerLoop(a, n, i, key);
      i := i + 1;
    }
    assert OuterPasses(a[..n], i, key) == a[..n];
    ExchangeSortSorted(old(a[..n]), key);
    ExchangeSortPermutes(old(a[..n]), key);
  }

  /** The inner loop for one i: compare position i with every later position. */
  method InnerLoop(a: array<ProcessInfo>, n: nat, i: nat, key: SortKey)
    requires i + 1 < n <= a.Length
    modifies a
    ensures a[..n] == InnerPass(old(a[..n]), i, i + 1, key)
    ensures a[n..] == old(a[n..])
  {
    var j := i + 1;
    while j < n
      invariant i < j <= n
      invariant InnerPass(a[..n], i, j, key) == InnerPass(old(a[..n]), i, i + 1, key)
      invariant a[n..] == old(a[n..])
    {
      SwapIfOutOfOrder(a, n, i, j, key);
      j := j + 1;
    }
  }

  /** The body of the inner loop: exchange positions i and j when the key at i is greater. */
  method SwapIfOutOfOrder(a: array<ProcessInfo>, n: nat, i: nat, j: nat, key: SortKey)
    requires i < j < n <= a.Length
    modifies a
    ensures a[..n] == SwapIfGreater(old(a[..n]), i, j, key)
    ensures a[n..] == old(a[n..])
  {
    if Key(a[i], key) > Key(a[j], key) {
      var temp := a[i];
      a[i] := a[j];
      a[j] := temp;
    }
  }

  /** sortProcessesByBurstTime (cse325.c:237-247). */
  method SortProcessesByBurstTime(a: array<ProcessInfo>, n: nat)
    requires n <= a.Length
    modifies a
    ensures a[..n] == ExchangeSort(old(a[..n]), ByBurstTime)
    ensures forall i, j :: 0 <= i < j < n ==> a[i].burstTime <= a[j].burstTime
    ensures multiset(a[..n]) == multiset(old(a[..n]))
    ensures a[n..] == old(a[n..])
  {
    ExchangeSortInPlace(a, n, ByBurstTime);
    assert forall i :: 0 <= i < n ==> a[..n][i] == a[i];
  }

  /** sortProcessesByPriority (cse325.c:250-260): lower priority numbers first. */
  method SortProcessesByPriority(a: array<ProcessInfo>, n: nat)
    requires n <= a.Length
    modifies a
    ensures a[..n] == ExchangeSort(old(a[..n]), ByPriority)
    ensures forall i, j :: 0 <= i < j < n ==> a[i].priority <= a[j].priority
    ensures multiset(a[..n]) == multiset(old(a[..n]))
    ensures a[n..] == old(a[n..])
  {
    ExchangeSortInPlace(a, n, ByPriority);
    assert forall i :: 0 <= i < n ==> a[..n][i] == a[i];
  }
}
