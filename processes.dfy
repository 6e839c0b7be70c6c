/** The process record of the scheduling simulator and the totals computed over a process table. */
module Processes {

  /** One row of the process table: the four input attributes and the three times a scheduler fills in. */
  datatype ProcessInfo = ProcessInfo(
    processId: int,
    arrivalTime: int,
    burstTime: int,
    priority: int,
    waitingTime: int,
    completionTime: int,
    turnaroundTime: int)

  /** The part of a record that comes from input and that no scheduler ever writes. */
  datatype Attributes = Attributes(processId: int, arrivalTime: int, burstTime: int, priority: int)

  function AttributesOf(p: ProcessInfo): Attributes {
    Attributes(p.processId, p.arrivalTime, p.burstTime, p.priority)
  }

  /** The attributes of a whole table, position by position. */
  function AllAttributes(ps: seq<ProcessInfo>): seq<Attributes> {
    seq(|ps|, k requires 0 <= k < |ps| => AttributesOf(ps[k]))
  }

  /** Sum of the burst times of a table. */
  function TotalBurst(ps: seq<ProcessInfo>): int {
    if ps == [] then 0 else TotalBurst(ps[..|ps| - 1]) + ps[|ps| - 1].burstTime
  }

  /** Sum of the waiting times of a table (the numerator of the average waiting time). */
  function TotalWaiting(ps: seq<ProcessInfo>): int {
    if ps == [] then 0 else TotalWaiting(ps[..|ps| - 1]) + ps[|ps| - 1].waitingTime
  }

  /** Sum of the turnaround times of a table (the numerator of the average turnaround time). */
  function TotalTurnaround(ps: seq<ProcessInfo>): int {
    if ps == [] then 0 else TotalTurnaround(ps[..|ps| - 1]) + ps[|ps| - 1].turnaroundTime
  }

  /** The identity every scheduler establishes for a process it has run to completion. */
  predicate TimesConsistent(p: ProcessInfo) {
    p.turnaroundTime == p.completionTime - p.arrivalTime &&
    p.turnaroundTime == p.waitingTime + p.burstTime
  }

  /**
   * When every record satisfies turnaround = waiting + burst, the totals do too, so the
   * average turnaround is the average waiting time plus the average burst time.
   */
  lemma {:induction false} TotalsAgree(ps: seq<ProcessInfo>)
    requires forall k :: 0 <= k < |ps| ==> TimesConsistent(ps[k])
    ensures TotalTurnaround(ps) == TotalWaiting(ps) + TotalBurst(ps)
  {
    if ps != [] {
      TotalsAgree(ps[..|ps| - 1]);
    }
  }
}
