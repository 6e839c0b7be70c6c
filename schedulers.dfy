/**
 * The four scheduling policies as the simulator runs them on a working copy of the
 * process table, the copy itself, and one pass of the menu that ties them together.
 */
module Schedulers {
  import opened Processes
  import opened Dispatch
  import opened Sorting
  import opened RoundRobin

  /**
   * Sorting by a key and then dispatching in table order gives a table sorted by that key,
   * holding the same attributes (as a multiset) as the input, in which every process has
   * turnaround = completion - arrival = waiting + burst and a waiting time that is not negative.
   */
  lemma SortThenDispatch(s: seq<ProcessInfo>, key: SortKey)
    ensures var r := Dispatched(ExchangeSort(s, key));
            |r| == |s| &&
            SortedBy(r, key) &&
            multiset(AllAttributes(r)) == multiset(AllAttributes(s)) &&
            WellTimed(r)
  {
    var sorted := ExchangeSort(s, key);
    var r := Dispatched(sorted);
    ExchangeSortSorted(s, key);
    ExchangeSortPermutes(s, key);
    DispatchedTimes(sorted);
    assert AllAttributes(r) == AllAttributes(sorted);
    forall i, j | 0 <= i < j < |r| ensures Key(r[i], key) <= Key(r[j], key) {
      assert AttributesOf(r[i]) == AttributesOf(sorted[i]) && AttributesOf(r[j]) == AttributesOf(sorted[j]);
    }
  }

  /** firstComeFirstServe (cse325.c:122-141): dispatch in table order. */
  method FirstComeFirstServe(a: array<ProcessInfo>, n: nat)
    requires n <= a.Length
    modifies a
    ensures a[..n] == Dispatched(old(a[..n]))
    ensures AllAttributes(a[..n]) == AllAttributes(old(a[..n]))
    ensures WellTimed(a[..n])
    ensures a[n..] == old(a[n..])
  {
    DispatchInOrder(a, n);
    DispatchedTimes(old(a[..n]));
  }

  /** shortestJobFirst (cse325.c:144-166): sort by burst time once, then dispatch in that order. */
  method ShortestJobFirst(a: array<ProcessInfo>, n: nat)
    requires n <= a.Length
    modifies a
    ensures a[..n] == Dispatched(ExchangeSort(old(a[..n]), ByBurstTime))
    ensures SortedBy(a[..n], ByBurstTime)
    ensures multiset(AllAttributes(a[..n])) == multiset(AllAttributes(old(a[..n])))
    ensures WellTimed(a[..n])
    ensures a[n..] == old(a[n..])
  {
    SortProcessesByBurstTime(a, n);
    DispatchInOrder(a, n);
    SortThenDispatch(old(a[..n]), ByBurstTime);
  }

  /** priorityScheduling (cse325.c:212-234): sort by priority once (lower number first), then dispatch. */
  method PriorityScheduling(a: array<ProcessInfo>, n: nat)
    requires n <= a.Length
    modifies a
    ensures a[..n] == Dispatched(ExchangeSort(old(a[..n]), ByPriority))
    ensures SortedBy(a[..n], ByPriority)
    ensures multiset(AllAttributes(a[..n])) == multiset(AllAttributes(old(a[..n])))
    ensures WellTimed(a[..n])
    ensures a[n..] == old(a[n..])
  {
    SortProcessesByPriority(a, n);
    DispatchInOrder(a, n);
    SortThenDispatch(old(a[..n]), ByPriority);
  }

  /** copyProcessArray (cse325.c:115-119): the first n records of `source` are copied into `destination`. */
  method CopyProcessArray(source: array<ProcessInfo>, destination: array<ProcessInfo>, n: nat)
    requires n <= source.Length && n <= destination.Length
    modifies destination
    ensures destination[..n] == old(source[..n])
    ensures destination[n..] == old(destination[n..])
    ensures source[..] == old(source[..])
  {
    for i := 0 to n
      invariant forall k :: 0 <= k < i ==> destination[k] == old(source[k])
      invariant forall k :: i <= k < destination.Length ==> destination[k] == old(destination[k])
      invariant forall k :: 0 <= k < source.Length ==> source[k] == old(source[k])
    {
      destination[i] := source[i];
    }
  }

  /** What one pass of the menu did. */
  datatype MenuOutcome = Scheduled | QuantumRejected | ExitRequested | InvalidChoice

  /**
   * One pass of the menu loop (cse325.c:82-108) once the choice and, for Round-Robin, the
   * quantum have been read: a fresh working copy is made and the chosen policy runs on it.
   * The original table is never changed, so every pass starts from the same input.
   */
  method MenuPass(originalProcesses: array<ProcessInfo>, workingProcesses: array<ProcessInfo>, n: nat,
                  userChoice: int, timeQuantum: int)
    returns (outcome: MenuOutcome)
    requires originalProcesses != workingProcesses
    requires n <= originalProcesses.Length && n <= workingProcesses.Length
    modifies workingProcesses
    ensures originalProcesses[..] == old(originalProcesses[..])
    ensures workingProcesses[n..] == old(workingProcesses[n..])
    ensures outcome == Scheduled <==> 1 <= userChoice <= 4 && (userChoice == 3 ==> timeQuantum > 0)
    ensures outcome == QuantumRejected <==> userChoice == 3 && timeQuantum <= 0
    ensures outcome == ExitRequested <==> userChoice == 5
    ensures userChoice == 1 ==> workingProcesses[..n] == Dispatched(originalProcesses[..n])
    ensures userChoice == 2 ==> workingProcesses[..n] == Dispatched(ExchangeSort(originalProcesses[..n], ByBurstTime))
    ensures userChoice == 3 && timeQuantum > 0 ==>
      workingProcesses[..n] == RoundRobinSchedule(originalProcesses[..n], timeQuantum)
    ensures userChoice == 4 ==> workingProcesses[..n] == Dispatched(ExchangeSort(originalProcesses[..n], ByPriority))
    ensures outcome != Scheduled ==> workingProcesses[..n] == originalProcesses[..n]
  {
    CopyProcessArray(originalProcesses, workingProcesses, n);
    if userChoice == 1 {
      FirstComeFirstServe(workingProcesses, n);
      outcome := Scheduled;
    } else if userChoice == 2 {
      ShortestJobFirst(workingProcesses, n);
      outcome := Scheduled;
    } else if userChoice == 3 {
      if timeQuantum <= 0 {
        outcome := QuantumRejected;
      } else {
        var _, _ := RoundRobinScheduling(workingProcesses, n, timeQuantum);
        outcome := Scheduled;
      }
    } else if userChoice == 4 {
      PriorityScheduling(workingProcesses, n);
      outcome := Scheduled;
    } else if userChoice == 5 {
      outcome := ExitRequested;
    } else {
      outcome := InvalidChoice;
    }
  }

  /** Two passes with the same choice on the same original table produce the same working table. */
  method SamePassTwice(originalProcesses: array<ProcessInfo>, first: array<ProcessInfo>, second: array<ProcessInfo>,
                       n: nat, userChoice: int, timeQuantum: int)
    requires originalProcesses != first && originalProcesses != second && first != second
    requires n <= originalProcesses.Length && n <= first.Length && n <= second.Length
    modifies first, second
    ensures first[..n] == second[..n]
    ensures originalProcesses[..] == old(originalProcesses[..])
  {
    var _ := MenuPass(originalProcesses, first, n, userChoice, timeQuantum);
    var _ := MenuPass(originalProcesses, second, n, userChoice, timeQuantum);
  }
}
