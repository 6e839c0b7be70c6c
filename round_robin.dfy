/**
 * Round-Robin scheduling as the simulator runs it: the table is scanned again and again
 * in index order, every process with work left runs for at most one quantum per scan,
 * arrival times never move the clock, and the loop stops after a scan that finds no
 * work left.
 *
 * The model describes the state after every scan in closed form. Once every process has
 * been offered `t` units of CPU (t = r * quantum after r scans), a process with burst b
 * has used min(b, t) of them. A process finishes in the scan whose budget first covers
 * its burst, and its completion time is everything the processes before it (itself
 * included) have used by the end of that scan plus what the processes after it had used
 * by its start.
 */
module RoundRobin {
  import opened Processes

  /** CPU time used by a process with burst b once every process was offered t units. */
  function Used(b: int, t: int): int {
    if b <= 0 then 0 else if b <= t then b else t
  }

  /** Its entry of the remaining-burst array at that point. */
  function Remaining(b: int, t: int): int {
    b - Used(b, t)
  }

  /** CPU time used by processes lo..hi-1 once every process was offered t units. */
  function UsedBetween(ps: seq<ProcessInfo>, lo: nat, hi: nat, t: int): int
    requires lo <= hi <= |ps|
    decreases hi - lo
  {
    if lo == hi then 0 else UsedBetween(ps, lo, hi - 1, t) + Used(ps[hi - 1].burstTime, t)
  }

  /** The work processes lo..hi-1 ask for: the sum of their positive burst times. */
  function WorkBetween(ps: seq<ProcessInfo>, lo: nat, hi: nat): int
    requires lo <= hi <= |ps|
    decreases hi - lo
  {
    if lo == hi then 0
    else WorkBetween(ps, lo, hi - 1) + (if ps[hi - 1].burstTime > 0 then ps[hi - 1].burstTime else 0)
  }

  /** The work the whole table asks for. */
  function PositiveWork(ps: seq<ProcessInfo>): int {
    WorkBetween(ps, 0, |ps|)
  }

  /** The budget at the start of the scan in which a burst of b finishes: the largest multiple of q below b. */
  function FinishBudget(b: int, q: int): (t: int)
    requires b > 0 && q > 0
    ensures 0 <= t < b <= t + q
    decreases b
  {
    if b <= q then 0 else FinishBudget(b - q, q) + q
  }

  /** When process k, whose burst is positive, completes. */
  function Completion(ps: seq<ProcessInfo>, k: nat, q: int): int
    requires k < |ps| && q > 0 && ps[k].burstTime > 0
  {
    var t := FinishBudget(ps[k].burstTime, q);
    UsedBetween(ps, 0, k + 1, t + q) + UsedBetween(ps, k + 1, |ps|, t)
  }

  /** The fields written at a finishing slice that ends at time c. */
  function Finished(p: ProcessInfo, c: int): ProcessInfo {
    p.(completionTime := c, waitingTime := c - p.burstTime - p.arrivalTime, turnaroundTime := c - p.arrivalTime)
  }

  /** The record of process k once every process was offered t units. */
  function RecordAt(ps: seq<ProcessInfo>, k: nat, t: int, q: int): ProcessInfo
    requires k < |ps| && q > 0
  {
    var p := ps[k];
    if 0 < p.burstTime <= t then Finished(p, Completion(ps, k, q)) else p.(waitingTime := 0)
  }

  /** The table Round-Robin leaves behind. */
  function RoundRobinSchedule(ps: seq<ProcessInfo>, q: int): seq<ProcessInfo>
    requires q > 0
  {
    seq(|ps|, k requires 0 <= k < |ps| =>
      if ps[k].burstTime > 0 then Finished(ps[k], Completion(ps, k, q)) else ps[k].(waitingTime := 0))
  }

  /** The state of the table and the remaining-burst array in the middle of a scan. */
  ghost predicate MidScan(cur: seq<ProcessInfo>, rem: seq<int>, ps: seq<ProcessInfo>, i: nat, t: int, q: int)
    requires q > 0
  {
    |cur| == |rem| == |ps| && i <= |ps| &&
    (forall k :: 0 <= k < i ==> rem[k] == Remaining(ps[k].burstTime, t + q) && cur[k] == RecordAt(ps, k, t + q, q)) &&
    (forall k :: i <= k < |ps| ==> rem[k] == Remaining(ps[k].burstTime, t) && cur[k] == RecordAt(ps, k, t, q))
  }

  /** Moving the scan past position i, whose record and remaining burst now reflect budget t + q. */
  lemma MidScanAdvance(cur: seq<ProcessInfo>, rem: seq<int>, ps: seq<ProcessInfo>, i: nat, t: int, q: int)
    requires q > 0 && i < |ps| && MidScan(cur, rem, ps, i, t, q)
    ensures MidScan(cur[i := RecordAt(ps, i, t + q, q)], rem[i := Remaining(ps[i].burstTime, t + q)], ps, i + 1, t, q)
  {
  }

  /** Moving the scan past a process with no work left changes neither the state nor the clock. */
  lemma MidScanSkip(cur: seq<ProcessInfo>, rem: seq<int>, ps: seq<ProcessInfo>, i: nat, t: int, q: int)
    requires q > 0 && t >= 0 && i < |ps| && MidScan(cur, rem, ps, i, t, q) && rem[i] <= 0
    ensures MidScan(cur, rem, ps, i + 1, t, q)
    ensures Remaining(ps[i].burstTime, t) <= 0
    ensures UsedBetween(ps, 0, i + 1, t + q) + UsedBetween(ps, i + 1, |ps|, t)
         == UsedBetween(ps, 0, i, t + q) + UsedBetween(ps, i, |ps|, t)
  {
    UsedSplitFront(ps, i, |ps|, t);
    assert cur[i := RecordAt(ps, i, t + q, q)] == cur;
    assert rem[i := Remaining(ps[i].burstTime, t + q)] == rem;
    MidScanAdvance(cur, rem, ps, i, t, q);
  }

  /** Before the first scan: nothing has been offered, nothing used, and the clock is within the total work. */
  lemma MidScanAtStart(cur: seq<ProcessInfo>, rem: seq<int>, ps: seq<ProcessInfo>, q: int)
    requires q > 0 && |cur| == |rem| == |ps|
    requires forall k :: 0 <= k < |ps| ==> rem[k] == ps[k].burstTime && cur[k] == ps[k].(waitingTime := 0)
    ensures MidScan(cur, rem, ps, 0, 0, q)
    ensures UsedBetween(ps, 0, |ps|, 0) == 0 <= WorkBetween(ps, 0, |ps|)
  {
    UsedAtStart(ps, 0, |ps|);
    UsedWithinWork(ps, 0, |ps|, 0);
  }

  /** After the scan that found no work: the table is the Round-Robin table and the clock the total work. */
  lemma MidScanFinal(cur: seq<ProcessInfo>, rem: seq<int>, ps: seq<ProcessInfo>, t: int, q: int)
    requires q > 0 && MidScan(cur, rem, ps, 0, t, q)
    requires forall k :: 0 <= k < |ps| ==> Remaining(ps[k].burstTime, t) <= 0
    ensures cur == RoundRobinSchedule(ps, q)
    ensures UsedBetween(ps, 0, |ps|, t) == PositiveWork(ps)
    ensures forall k :: 0 <= k < |ps| ==> rem[k] == if ps[k].burstTime > 0 then 0 else ps[k].burstTime
  {
    UsedAllDone(ps, 0, |ps|, t);
  }

  /** Peeling off the first process of a range. */
  lemma {:induction false} UsedSplitFront(ps: seq<ProcessInfo>, lo: nat, hi: nat, t: int)
    requires lo < hi <= |ps|
    ensures UsedBetween(ps, lo, hi, t) == Used(ps[lo].burstTime, t) + UsedBetween(ps, lo + 1, hi, t)
    decreases hi - lo
  {
    if lo + 1 < hi {
      UsedSplitFront(ps, lo, hi - 1, t);
    }
  }

  lemma {:induction false} UsedAtStart(ps: seq<ProcessInfo>, lo: nat, hi: nat)
    requires lo <= hi <= |ps|
    ensures UsedBetween(ps, lo, hi, 0) == 0
    decreases hi - lo
  {
    if lo < hi {
      UsedAtStart(ps, lo, hi - 1);
    }
  }

  /** No range uses more CPU than it asks for, and none uses less than nothing. */
  lemma {:induction false} UsedWithinWork(ps: seq<ProcessInfo>, lo: nat, hi: nat, t: int)
    requires lo <= hi <= |ps| && t >= 0
    ensures 0 <= UsedBetween(ps, lo, hi, t) <= WorkBetween(ps, lo, hi)
    decreases hi - lo
  {
    if lo < hi {
      UsedWithinWork(ps, lo, hi - 1, t);
    }
  }

  /** Once the budget covers every burst of a range, the range has used exactly the work it asked for. */
  lemma {:induction false} UsedAllDone(ps: seq<ProcessInfo>, lo: nat, hi: nat, t: int)
    requires lo <= hi <= |ps|
    requires forall k :: lo <= k < hi ==> Remaining(ps[k].burstTime, t) <= 0
    ensures UsedBetween(ps, lo, hi, t) == WorkBetween(ps, lo, hi)
    decreases hi - lo
  {
    if lo < hi {
      assert Remaining(ps[hi - 1].burstTime, t) <= 0;
      UsedAllDone(ps, lo, hi - 1, t);
    }
  }

  lemma {:induction false} WorkSplit(ps: seq<ProcessInfo>, lo: nat, mid: nat, hi: nat)
    requires lo <= mid <= hi <= |ps|
    ensures WorkBetween(ps, lo, hi) == WorkBetween(ps, lo, mid) + WorkBetween(ps, mid, hi)
    decreases hi - mid
  {
    if mid < hi {
      WorkSplit(ps, lo, mid, hi - 1);
    }
  }

  /** The budgets a scan can start with: 0, q, 2q, ... */
  predicate ScanBudget(t: int, q: int)
    requires q > 0
    decreases t
  {
    t == 0 || (t >= q && ScanBudget(t - q, q))
  }

  /** A burst left over after the scans that offered t units finishes in the next scan. */
  lemma {:induction false} FinishBudgetOfScan(b: int, q: int, t: int)
    requires q > 0 && ScanBudget(t, q) && t < b <= t + q
    ensures FinishBudget(b, q) == t
    decreases t
  {
    if t != 0 {
      FinishBudgetOfScan(b - q, q, t - q);
    }
  }

  /**
   * A process with a positive burst completes no earlier than its burst time and no later
   * than the total work of the table: Round-Robin never leaves the CPU idle.
   */
  lemma CompletionBounds(ps: seq<ProcessInfo>, k: nat, q: int)
    requires k < |ps| && q > 0 && ps[k].burstTime > 0
    ensures ps[k].burstTime <= Completion(ps, k, q) <= PositiveWork(ps)
  {
    var t := FinishBudget(ps[k].burstTime, q);
    UsedWithinWork(ps, 0, k, t + q);
    UsedWithinWork(ps, k + 1, |ps|, t);
    WorkSplit(ps, 0, k + 1, |ps|);
  }

  /**
   * After Round-Robin every record keeps its attributes and its position. A process with a
   * positive burst has turnaround = completion - arrival = waiting + burst, with its
   * completion between its burst and the total work; any other process was never run:
   * its waiting time is 0 and its completion and turnaround are as they were.
   */
  lemma RoundRobinTimes(ps: seq<ProcessInfo>, q: int)
    requires q > 0
    ensures |RoundRobinSchedule(ps, q)| == |ps|
    ensures forall k :: 0 <= k < |ps| ==>
      var r := RoundRobinSchedule(ps, q)[k];
      AttributesOf(r) == AttributesOf(ps[k]) &&
      (ps[k].burstTime > 0 ==>
        TimesConsistent(r) && ps[k].burstTime <= r.completionTime <= PositiveWork(ps)) &&
      (ps[k].burstTime <= 0 ==>
        r.waitingTime == 0 && r.completionTime == ps[k].completionTime && r.turnaroundTime == ps[k].turnaroundTime)
  {
    forall k | 0 <= k < |ps| && ps[k].burstTime > 0
      ensures ps[k].burstTime <= Completion(ps, k, q) <= PositiveWork(ps)
    {
      CompletionBounds(ps, k, q);
    }
  }

  /**
   * roundRobinScheduling (cse325.c:169-206), with the quantum check that only its caller
   * makes (cse325.c:94) as a precondition. `a[..n]` becomes the Round-Robin table. The ghost
   * results expose the final clock, which is the total work (the CPU is never idle), and the
   * final remaining-burst array, which is 0 for every process that had work.
   */
  method RoundRobinScheduling(a: array<ProcessInfo>, n: nat, timeQuantum: int)
    returns (ghost finishTime: int, ghost remaining: seq<int>)
    requires n <= a.Length && timeQuantum > 0
    modifies a
    ensures a[..n] == RoundRobinSchedule(old(a[..n]), timeQuantum)
    ensures a[n..] == old(a[n..])
    ensures finishTime == PositiveWork(old(a[..n]))
    ensures |remaining| == n
    ensures forall k :: 0 <= k < n ==> remaining[k] == if old(a[k]).burstTime > 0 then 0 else old(a[k]).burstTime
  {
    ghost var ps := a[..n];
    ghost var q := timeQuantum;
    var remainingBurstTime := InitializeRemaining(a, n);
    var currentTime := 0;

    ghost var t := 0;
    MidScanAtStart(a[..n], remainingBurstTime[..], ps, q);
    var allProcessesCompleted := false;
    while !allProcessesCompleted
      invariant ScanBudget(t, q) && t >= 0
      invariant MidScan(a[..n], remainingBurstTime[..], ps, 0, t, q)
      invariant a[n..] == old(a[n..])
      invariant currentTime == UsedBetween(ps, 0, n, t) <= WorkBetween(ps, 0, n)
      invariant allProcessesCompleted ==> forall k :: 0 <= k < n ==> Remaining(ps[k].burstTime, t) <= 0
      decreases WorkBetween(ps, 0, n) - currentTime + (if allProcessesCompleted then 0 else 1)
    {
      currentTime, allProcessesCompleted := Scan(a, n, remainingBurstTime, currentTime, timeQuantum, ps, t);
      t := t + q;
      UsedWithinWork(ps, 0, n, t);
    }
    MidScanFinal(a[..n], remainingBurstTime[..], ps, t, q);
    finishTime := currentTime;
    remaining := remainingBurstTime[..];
  }

  /**
   * The initialization loop (cse325.c:176-179): the remaining-burst array starts as the
   * burst times and every waiting time is reset to 0.
   */
  method InitializeRemaining(a: array<ProcessInfo>, n: nat) returns (remainingBurstTime: array<int>)
    requires n <= a.Length
    modifies a
    ensures fresh(remainingBurstTime) && remainingBurstTime.Length == n
    ensures forall k :: 0 <= k < n ==> remainingBurstTime[k] == old(a[k]).burstTime && a[k] == old(a[k]).(waitingTime := 0)
    ensures a[n..] == old(a[n..])
  {
    remainingBurstTime := new int[n];
    for i := 0 to n
      invariant forall k :: 0 <= k < i ==> remainingBurstTime[k] == old(a[k]).burstTime && a[k] == old(a[k]).(waitingTime := 0)
      invariant forall k :: i <= k < a.Length ==> a[k] == old(a[k])
    {
      remainingBurstTime[i] := a[i].burstTime;
      a[i] := a[i].(waitingTime := 0);
    }
  }

  /**
   * One scan over the table (cse325.c:184-205): every process with work left gets one slice.
   * The scan reports that all processes are completed exactly when it found no work, and
   * then the clock has not moved; otherwise the clock has moved forward.
   */
  method Scan(a: array<ProcessInfo>, n: nat, remainingBurstTime: array<int>, currentTime: int, timeQuantum: int,
              ghost ps: seq<ProcessInfo>, ghost t: int)
    returns (newTime: int, allProcessesCompleted: bool)
    requires n <= a.Length && remainingBurstTime.Length == n == |ps|
    requires timeQuantum > 0 && ScanBudget(t, timeQuantum) && t >= 0
    requires MidScan(a[..n], remainingBurstTime[..], ps, 0, t, timeQuantum)
    requires currentTime == UsedBetween(ps, 0, n, t)
    modifies a, remainingBurstTime
    ensures MidScan(a[..n], remainingBurstTime[..], ps, 0, t + timeQuantum, timeQuantum)
    ensures a[n..] == old(a[n..])
    ensures newTime == UsedBetween(ps, 0, n, t + timeQuantum)
    ensures allProcessesCompleted <==> forall k :: 0 <= k < n ==> Remaining(ps[k].burstTime, t) <= 0
    ensures allProcessesCompleted ==> newTime == currentTime
    ensures !allProcessesCompleted ==> newTime > currentTime
  {
    ghost var q := timeQuantum;
    newTime := currentTime;
    allProcessesCompleted := true;
    for processIndex := 0 to n
      invariant MidScan(a[..n], remainingBurstTime[..], ps, processIndex, t, q)
      invariant a[n..] == old(a[n..])
      invariant newTime == UsedBetween(ps, 0, processIndex, t + q) + UsedBetween(ps, processIndex, n, t)
      invariant allProcessesCompleted <==> forall k :: 0 <= k < processIndex ==> Remaining(ps[k].burstTime, t) <= 0
      invariant allProcessesCompleted ==> newTime == currentTime
      invariant !allProcessesCompleted ==> newTime > currentTime
    {
      if remainingBurstTime[processIndex] > 0 {
        allProcessesCompleted := false;
        MidScanAdvance(a[..n], remainingBurstTime[..], ps, processIndex, t, q);
        newTime := RunSlice(a, n, remainingBurstTime, processIndex, newTime, timeQuantum, ps, t);
      } else {
        MidScanSkip(a[..n], remainingBurstTime[..], ps, processIndex, t, q);
      }
    }
  }

  /**
   * One slice of the scan (cse325.c:190-203) for a process with work left: it runs for a
   * whole quantum if more than a quantum is left, and otherwise finishes, recording its
   * completion, waiting and turnaround times.
   */
  method RunSlice(a: array<ProcessInfo>, n: nat, remainingBurstTime: array<int>, processIndex: nat,
                  currentTime: int, timeQuantum: int, ghost ps: seq<ProcessInfo>, ghost t: int)
    returns (newTime: int)
    requires n <= a.Length && remainingBurstTime.Length == n == |ps| && processIndex < n
    requires timeQuantum > 0 && ScanBudget(t, timeQuantum) && t >= 0
    requires a[processIndex] == RecordAt(ps, processIndex, t, timeQuantum)
    requires remainingBurstTime[processIndex] == Remaining(ps[processIndex].burstTime, t) > 0
    requires currentTime == UsedBetween(ps, 0, processIndex, t + timeQuantum) + UsedBetween(ps, processIndex, n, t)
    modifies a, remainingBurstTime
    ensures a[..n] == old(a[..n])[processIndex := RecordAt(ps, processIndex, t + timeQuantum, timeQuantum)]
    ensures a[n..] == old(a[n..])
    ensures remainingBurstTime[..] ==
      old(remainingBurstTime[..])[processIndex := Remaining(ps[processIndex].burstTime, t + timeQuantum)]
    ensures newTime == UsedBetween(ps, 0, processIndex + 1, t + timeQuantum) + UsedBetween(ps, processIndex + 1, n, t)
    ensures newTime > currentTime
  {
    ghost var q := timeQuantum;
    ghost var i := processIndex;
    UsedSplitFront(ps, i, n, t);
    if remainingBurstTime[processIndex] > timeQuantum {
      newTime := currentTime + timeQuantum;
      remainingBurstTime[processIndex] := remainingBurstTime[processIndex] - timeQuantum;
    } else {
      FinishBudgetOfScan(ps[i].burstTime, q, t);
      newTime := currentTime + remainingBurstTime[processIndex];
      a[processIndex] := a[processIndex].(completionTime := newTime);
      a[processIndex] := a[processIndex].(waitingTime :=
        newTime - a[processIndex].burstTime - a[processIndex].arrivalTime);
      a[processIndex] := a[processIndex].(turnaroundTime :=
        a[processIndex].completionTime - a[processIndex].arrivalTime);
      remainingBurstTime[processIndex] := 0;
    }
  }
}
