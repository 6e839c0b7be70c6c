/**
 * Concrete runs of the model on small tables: none of them is needed by the other
 * modules; they pin the model to hand-computed schedules, including the two behaviours
 * that differ from what the policies are often expected to do (unstable sorting ties and
 * negative Round-Robin waiting times).
 */
module Examples {
  import opened Processes
  import opened Dispatch
  import opened Sorting
  import opened RoundRobin

  /** A record as the input loop leaves it: the three computed times start at 0. */
  function Input(id: int, arrival: int, burst: int, priority: int): ProcessInfo {
    ProcessInfo(id, arrival, burst, priority, 0, 0, 0)
  }

  /** FCFS on P1(0,5), P2(1,3), P3(2,8): completions 5, 8, 16 and waiting times 0, 4, 6. */
  lemma FirstComeFirstServeExample()
    ensures var r := Dispatched([Input(1, 0, 5, 0), Input(2, 1, 3, 0), Input(3, 2, 8, 0)]);
            r[0].completionTime == 5 && r[1].completionTime == 8 && r[2].completionTime == 16 &&
            r[0].waitingTime == 0 && r[1].waitingTime == 4 && r[2].waitingTime == 6
  {
  }

  /**
   * SJF on the same table runs P2, P1, P3. P2 arrives at 1, so the clock first moves to 1:
   * completions 4, 9, 17 and waiting times 0, 4, 7.
   */
  lemma ShortestJobFirstExample()
    ensures var s := ExchangeSort([Input(1, 0, 5, 0), Input(2, 1, 3, 0), Input(3, 2, 8, 0)], ByBurstTime);
            s == [Input(2, 1, 3, 0), Input(1, 0, 5, 0), Input(3, 2, 8, 0)] &&
            var r := Dispatched(s);
            r[0].completionTime == 4 && r[1].completionTime == 9 && r[2].completionTime == 17 &&
            r[0].waitingTime == 0 && r[1].waitingTime == 4 && r[2].waitingTime == 7
  {
  }

  /** Priority on P1(0,4,prio 2), P2(0,3,prio 1) runs P2 then P1: completions 3, 7 and waiting 0, 3. */
  lemma PrioritySchedulingExample()
    ensures var s := ExchangeSort([Input(1, 0, 4, 2), Input(2, 0, 3, 1)], ByPriority);
            s == [Input(2, 0, 3, 1), Input(1, 0, 4, 2)] &&
            var r := Dispatched(s);
            r[0].completionTime == 3 && r[1].completionTime == 7 &&
            r[0].waitingTime == 0 && r[1].waitingTime == 3
  {
  }

  /** The exchange sort does not keep ties in input order: bursts 2 (P1), 2 (P2), 1 (P3) end as P3, P2, P1. */
  lemma ExchangeSortNotStable()
    ensures ExchangeSort([Input(1, 0, 2, 0), Input(2, 0, 2, 0), Input(3, 0, 1, 0)], ByBurstTime)
         == [Input(3, 0, 1, 0), Input(2, 0, 2, 0), Input(1, 0, 2, 0)]
  {
  }

  /** Round-Robin with quantum 2 on P1(0,5), P2(0,3): P2 completes at 7 (waiting 4), P1 at 8 (waiting 3). */
  lemma RoundRobinExample()
    ensures var r := RoundRobinSchedule([Input(1, 0, 5, 0), Input(2, 0, 3, 0)], 2);
            r[0].completionTime == 8 && r[0].waitingTime == 3 &&
            r[1].completionTime == 7 && r[1].waitingTime == 4
  {
    var ps := [Input(1, 0, 5, 0), Input(2, 0, 3, 0)];
    assert FinishBudget(5, 2) == 4 && FinishBudget(3, 2) == 2;
    assert Completion(ps, 0, 2) == 8;
    assert Completion(ps, 1, 2) == 7;
  }

  /** Round-Robin ignores arrival times: P2 arriving at 10 completes at 2, with waiting time 2 - 1 - 10 = -9. */
  lemma RoundRobinNegativeWaiting()
    ensures var r := RoundRobinSchedule([Input(1, 0, 1, 0), Input(2, 10, 1, 0)], 2);
            r[1].completionTime == 2 && r[1].waitingTime == -9
  {
  }

  /**
   * A single process, whatever its arrival time, waits 0 and has turnaround equal to its
   * burst under FCFS, SJF and Priority: the clock moves to its arrival, and sorting a
   * one-record table changes nothing. Round-Robin never moves the clock to the arrival,
   * so the lone process completes at its burst time and its waiting time is -arrival.
   */
  lemma SingleProcess(p: ProcessInfo, q: int)
    requires p.arrivalTime >= 0 && p.burstTime > 0 && q > 0
    ensures ExchangeSort([p], ByBurstTime) == [p] && ExchangeSort([p], ByPriority) == [p]
    ensures Dispatched([p])[0].waitingTime == 0 && Dispatched([p])[0].turnaroundTime == p.burstTime
    ensures Dispatched([p])[0].completionTime == p.arrivalTime + p.burstTime
    ensures RoundRobinSchedule([p], q)[0].completionTime == p.burstTime
    ensures RoundRobinSchedule([p], q)[0].waitingTime == -p.arrivalTime
  {
    var t := FinishBudget(p.burstTime, q);
    assert UsedBetween([p], 0, 1, t + q) == UsedBetween([p], 0, 0, t + q) + Used(p.burstTime, t + q) == p.burstTime;
    assert UsedBetween([p], 1, 1, t) == 0;
    assert Completion([p], 0, q) == p.burstTime;
  }
}
