/**
 * The sequential dispatch loop that First-Come-First-Serve, Shortest-Job-First and
 * Priority scheduling share: the table is run in index order, the clock is moved
 * forward to a process's arrival when it is behind, and each process then runs its
 * whole burst without interruption.
 */
module Dispatch {
  import opened Processes

  /** When a process dispatched at `clock` starts: not before the clock, not before it arrives. */
  function StartTime(clock: int, p: ProcessInfo): int {
    if clock < p.arrivalTime then p.arrivalTime else clock
  }

  /** The record of `p` after it is dispatched with the clock at `clock`. */
  function RunProcess(p: ProcessInfo, clock: int): ProcessInfo {
    var start := StartTime(clock, p);
    var done := start + p.burstTime;
    p.(waitingTime := start - p.arrivalTime, completionTime := done, turnaroundTime := done - p.arrivalTime)
  }

  /** The clock once every process of `ps` has been dispatched, in order, starting at time 0. */
  function ClockAfter(ps: seq<ProcessInfo>): int {
    if ps == [] then 0
    else
      var init := ps[..|ps| - 1];
      StartTime(ClockAfter(init), ps[|ps| - 1]) + ps[|ps| - 1].burstTime
  }

  /** The table after the dispatch loop has run over all of `ps`. */
  function Dispatched(ps: seq<ProcessInfo>): (r: seq<ProcessInfo>)
    ensures |r| == |ps|
    ensures forall k :: 0 <= k < |ps| ==> AttributesOf(r[k]) == AttributesOf(ps[k])
  {
    if ps == [] then []
    else
      var init := ps[..|ps| - 1];
      Dispatched(init) + [RunProcess(ps[|ps| - 1], ClockAfter(init))]
  }

  /** Dispatching a prefix gives the prefix of the dispatched table. */
  lemma {:induction false} DispatchedPrefix(ps: seq<ProcessInfo>, k: nat)
    requires k <= |ps|
    ensures Dispatched(ps)[..k] == Dispatched(ps[..k])
  {
    if k < |ps| {
      var init := ps[..|ps| - 1];
      DispatchedPrefix(init, k);
      assert init[..k] == ps[..k];
      assert Dispatched(ps)[..k] == Dispatched(init)[..k];
    } else {
      assert ps[..k] == ps;
    }
  }

  /** Process `k` is run with the clock that the processes before it left behind. */
  lemma {:induction false} DispatchedAt(ps: seq<ProcessInfo>, k: nat)
    requires k < |ps|
    ensures Dispatched(ps)[k] == RunProcess(ps[k], ClockAfter(ps[..k]))
  {
    var pre := ps[..k + 1];
    DispatchedPrefix(ps, k + 1);
    assert pre[..k] == ps[..k];
    assert Dispatched(pre) == Dispatched(ps[..k]) + [RunProcess(ps[k], ClockAfter(ps[..k]))];
    assert Dispatched(ps)[k] == Dispatched(ps)[..k + 1][k];
  }

  /** The clock after a non-empty table is the completion time of its last process. */
  lemma ClockIsLastCompletion(ps: seq<ProcessInfo>)
    requires ps != []
    ensures ClockAfter(ps) == Dispatched(ps)[|ps| - 1].completionTime
  {
  }

  /**
   * Each process starts at the later of its arrival time and the completion time of the
   * process dispatched just before it (time 0 for the first), then runs its whole burst.
   * Together with the turnaround identity this determines every computed field.
   */
  lemma StartsAtLaterOfClockAndArrival(ps: seq<ProcessInfo>, k: nat)
    requires k < |ps|
    ensures var r := Dispatched(ps);
            var clock := if k == 0 then 0 else r[k - 1].completionTime;
            var start := if clock < ps[k].arrivalTime then ps[k].arrivalTime else clock;
            r[k].waitingTime == start - ps[k].arrivalTime &&
            r[k].completionTime == start + ps[k].burstTime &&
            r[k].turnaroundTime == r[k].completionTime - ps[k].arrivalTime
  {
    DispatchedAt(ps, k);
    if k > 0 {
      ClockIsLastCompletion(ps[..k]);
      DispatchedPrefix(ps, k);
      assert Dispatched(ps)[k - 1] == Dispatched(ps)[..k][k - 1];
    }
  }

  /** Every process of the table has turnaround = completion - arrival = waiting + burst and a waiting time that is not negative. */
  predicate WellTimed(s: seq<ProcessInfo>) {
    forall k :: 0 <= k < |s| ==> TimesConsistent(s[k]) && s[k].waitingTime >= 0
  }

  /**
   * After the sequential loop every process has turnaround = completion - arrival =
   * waiting + burst, a waiting time that is never negative, and a completion no
   * earlier than its arrival plus its burst.
   */
  lemma DispatchedTimes(ps: seq<ProcessInfo>)
    ensures forall k :: 0 <= k < |ps| ==>
      var r := Dispatched(ps)[k];
      TimesConsistent(r) && r.waitingTime >= 0 && r.completionTime >= ps[k].arrivalTime + ps[k].burstTime
  {
    forall k | 0 <= k < |ps|
      ensures var r := Dispatched(ps)[k];
              TimesConsistent(r) && r.waitingTime >= 0 && r.completionTime >= ps[k].arrivalTime + ps[k].burstTime
    {
      DispatchedAt(ps, k);
    }
  }

  /** The clock never falls behind the total of the bursts run so far. */
  lemma {:induction false} ClockCoversBursts(ps: seq<ProcessInfo>)
    ensures ClockAfter(ps) >= TotalBurst(ps)
  {
    if ps != [] {
      ClockCoversBursts(ps[..|ps| - 1]);
    }
  }

  /**
   * If every process has arrived by the time the bursts before it are done, the CPU is
   * never idle and the final clock is exactly the total burst time.
   */
  lemma {:induction false} NoIdleGap(ps: seq<ProcessInfo>)
    requires forall k :: 0 <= k < |ps| ==> ps[k].arrivalTime <= TotalBurst(ps[..k])
    ensures ClockAfter(ps) == TotalBurst(ps)
  {
    if ps != [] {
      var init := ps[..|ps| - 1];
      forall k | 0 <= k < |init|
        ensures init[k].arrivalTime <= TotalBurst(init[..k])
      {
        assert init[..k] == ps[..k];
      }
      NoIdleGap(init);
      assert ps[..|ps| - 1] == init;
    }
  }

  /** With no negative burst, completion times never decrease along the table. */
  lemma {:induction false} CompletionNonDecreasing(ps: seq<ProcessInfo>)
    requires forall k :: 0 <= k < |ps| ==> ps[k].burstTime >= 0
    ensures forall i, j :: 0 <= i <= j < |ps| ==>
      Dispatched(ps)[i].completionTime <= Dispatched(ps)[j].completionTime
  {
    if ps != [] {
      var init := ps[..|ps| - 1];
      CompletionNonDecreasing(init);
      var r := Dispatched(ps);
      assert r[..|ps| - 1] == Dispatched(init);
      if init != [] {
        ClockIsLastCompletion(init);
      }
      forall i, j | 0 <= i <= j < |ps|
        ensures r[i].completionTime <= r[j].completionTime
      {
        if j == |ps| - 1 && i < j {
          assert r[i] == Dispatched(init)[i];
          assert Dispatched(init)[i].completionTime <= Dispatched(init)[|init| - 1].completionTime;
        } else if j < |ps| - 1 {
          assert r[i] == Dispatched(init)[i] && r[j] == Dispatched(init)[j];
        }
      }
    }
  }

  /** Summed over the dispatched table, turnaround is waiting plus burst. */
  lemma DispatchedTotals(ps: seq<ProcessInfo>)
    ensures TotalTurnaround(Dispatched(ps)) == TotalWaiting(Dispatched(ps)) + TotalBurst(ps)
  {
    DispatchedTimes(ps);
    TotalsAgree(Dispatched(ps));
    BurstsKept(Dispatched(ps), ps);
  }

  /** Two tables with the same attributes have the same total burst time. */
  lemma {:induction false} BurstsKept(r: seq<ProcessInfo>, ps: seq<ProcessInfo>)
    requires |r| == |ps|
    requires forall k :: 0 <= k < |ps| ==> r[k].burstTime == ps[k].burstTime
    ensures TotalBurst(r) == TotalBurst(ps)
  {
    if r != [] {
      BurstsKept(r[..|r| - 1], ps[..|ps| - 1]);
    }
  }

  /**
   * The sequential dispatch loop (cse325.c:125-138): `a[..n]` becomes the dispatched
   * table, the rest of the array is untouched.
   */
  method DispatchInOrder(a: array<ProcessInfo>, n: nat)
    requires n <= a.Length
    modifies a
    ensures a[..n] == Dispatched(old(a[..n]))
    ensures a[n..] == old(a[n..])
  {
    ghost var s := a[..n];
    var currentTime := 0;
    for i := 0 to n
      invariant a[..i] == Dispatched(s[..i])
      invariant a[i..] == old(a[i..])
      invariant currentTime == ClockAfter(s[..i])
    {
      ghost var done := a[..i];
      assert a[i] == s[i] by { assert a[i..][0] == old(a[i..])[0]; }
      DispatchedStep(s, i);
      currentTime := DispatchOne(a, i, currentTime);
      assert a[..i] == done;
      assert a[..i + 1] == done + [a[i]];
    }
    assert s[..n] == s;
  }

  /** The body of the dispatch loop: process `i` starts at the later of the clock and its arrival, and runs to completion. */
  method DispatchOne(a: array<ProcessInfo>, i: nat, clock: int) returns (newClock: int)
    requires i < a.Length
    modifies a
    ensures a[i] == RunProcess(old(a[i]), clock)
    ensures forall k :: 0 <= k < a.Length && k != i ==> a[k] == old(a[k])
    ensures newClock == StartTime(clock, old(a[i])) + old(a[i]).burstTime
  {
    var currentTime := clock;
    if currentTime < a[i].arrivalTime {
      currentTime := a[i].arrivalTime;
    }
    a[i] := a[i].(waitingTime := currentTime - a[i].arrivalTime);
    currentTime := currentTime + a[i].burstTime;
    a[i] := a[i].(completionTime := currentTime);
    a[i] := a[i].(turnaroundTime := a[i].completionTime - a[i].arrivalTime);
    newClock := currentTime;
  }

  /** One more iteration of the loop appends one dispatched record and moves the clock past it. */
  lemma DispatchedStep(s: seq<ProcessInfo>, i: nat)
    requires i < |s|
    ensures Dispatched(s[..i + 1]) == Dispatched(s[..i]) + [RunProcess(s[i], ClockAfter(s[..i]))]
    ensures ClockAfter(s[..i + 1]) == StartTime(ClockAfter(s[..i]), s[i]) + s[i].burstTime
  {
    assert s[..i + 1][..i] == s[..i];
  }
}
