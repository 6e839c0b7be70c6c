# CPU scheduling simulator: verified model of the scheduling engine

The simulator reads a table of processes: an id, an arrival time, a burst time and a priority for each. It then computes, for one of four policies, every process's waiting, completion and turnaround times. The policies are First-Come-First-Serve (FCFS), Shortest-Job-First (SJF), Round-Robin (RR) and Priority. Each run starts from a fresh working copy of the input table. This project models the engine in `cse325.c`, the file's own functions over an array of `ProcessInfo` records, and proves what those functions guarantee.

Modules, in dependency order:

- `Processes` (processes.dfy): the `ProcessInfo` record, its input attributes, and integer totals of waiting, turnaround and burst times.
- `Dispatch` (dispatch.dfy): the sequential dispatch loop that FCFS, SJF and Priority share. The loop is the method `DispatchInOrder`. The specification function `Dispatched` states the table the loop produces.
- `Sorting` (sorting.dfy): the two exchange sorts. The nested `i < j` loops are the in-place method `ExchangeSortInPlace`, which works on either key. An exact functional model (`InnerPass`, `OuterPasses`, `ExchangeSort`) describes what those loops produce. Lemmas prove the result sorted and a permutation.
- `RoundRobin` (round_robin.dfy): Round-Robin as the code runs it, with a `remainingBurstTime` array and repeated scans in index order. Its specification is a closed form that does not simulate the scans. Suppose every process has been offered `t` units of CPU, where `t` is a multiple of the quantum. Then a process with burst `b` has used `min(b, t)`. A process finishes in the first scan whose budget covers its burst. Its completion time is what it and every earlier process have used by the end of that scan, plus what every later process had used by the scan's start. The method's loop invariants tie the array state to this closed form after every scan and every slice.
- `Schedulers` (schedulers.dfy): `firstComeFirstServe`, `shortestJobFirst`, `priorityScheduling` and `copyProcessArray`, plus one pass of the menu: copy the table, then run the chosen policy.
- `Examples` (examples.dfy): the model on small hand-computed tables.

Computation only. The record fields and integer arithmetic are as in the source. Arrays are Dafny arrays of length at least `n`, and only `a[..n]` is touched. Integers are unbounded.

## Model

| member | source | states |
|---|---|---|
| `Processes.TotalsAgree` | cse325.c:282-288 | Suppose every record has turnaround = waiting + burst. Then the total turnaround is the total waiting time plus the total burst time. These totals are the numerators of the two averages. |
| `Dispatch.Dispatched` | cse325.c:128-138 | The dispatched table has as many records as the input, and each keeps its id, arrival, burst and priority. |
| `Dispatch.DispatchedPrefix` | cse325.c:128-138 | Dispatching a prefix of the table gives the same prefix of the result: later processes never affect earlier ones. |
| `Dispatch.DispatchedAt` | cse325.c:129-137 | Each process is run with the clock that the processes before it left behind. |
| `Dispatch.ClockIsLastCompletion` | cse325.c:134-135 | The clock after the loop is the completion time of the last process. |
| `Dispatch.StartsAtLaterOfClockAndArrival` | cse325.c:129-137 | Each process starts at the later of its arrival and the previous completion (time 0 for the first). Waiting = start - arrival, completion = start + burst and turnaround = completion - arrival. Together these fix every computed field. |
| `Dispatch.DispatchedTimes` | cse325.c:133-137 | After the loop, every process has turnaround = completion - arrival = waiting + burst, waiting >= 0, and completion >= arrival + burst. |
| `Dispatch.ClockCoversBursts` | cse325.c:129-134 | The final clock is at least the sum of all burst times. |
| `Dispatch.NoIdleGap` | cse325.c:129-134 | Suppose every process has arrived by the time the bursts before it are done. Then the final clock is exactly the total burst time. |
| `Dispatch.CompletionNonDecreasing` | cse325.c:129-135 | With no negative burst, completion times never decrease along the table. |
| `Dispatch.DispatchedTotals` | cse325.c:133-137 | Over the dispatched table, total turnaround = total waiting + total burst. |
| `Dispatch.DispatchOne` | cse325.c:129-137 | The loop body sets process i to `RunProcess` at the given clock and returns the clock at its completion. No other entry changes. |
| `Dispatch.DispatchedStep` | cse325.c:128-138 | Each iteration appends one dispatched record to the prefix done so far. The clock moves to the later of itself and the arrival, plus the burst. |
| `Dispatch.DispatchInOrder` | cse325.c:125-138 | The loop leaves `a[..n]` equal to `Dispatched` of its old contents and the rest of the array untouched. |
| `Sorting.InnerPass` | cse325.c:239-245 | One run of the inner loop keeps the table's length. |
| `Sorting.OuterPasses` | cse325.c:238-246 | The outer loop keeps the table's length. |
| `Sorting.ExchangeSort` | cse325.c:238-246 | The whole nested loop keeps the table's length. |
| `Sorting.SwapIfGreaterPermutes` | cse325.c:240-244 | One conditional exchange keeps the multiset of records and the multiset of their attributes. |
| `Sorting.InnerPassPermutes` | cse325.c:239-245 | An inner pass keeps both multisets. |
| `Sorting.InnerPassMinimum` | cse325.c:239-245 | An inner pass for position i leaves positions before i alone. It puts at i a key no greater than any later key, and keeps every earlier key at or below every key from i on. |
| `Sorting.OuterPassesSorted` | cse325.c:238-246 | Suppose the first i positions are sorted and bound everything after them. Then the remaining outer passes sort the table. |
| `Sorting.ExchangeSortSorted` | cse325.c:238-246 | The exchange sort's result is sorted ascending by its key. |
| `Sorting.OuterPassesPermute` | cse325.c:238-246 | The outer passes keep both multisets. |
| `Sorting.ExchangeSortPermutes` | cse325.c:238-246 | The exchange sort's result is a permutation of its input, as records and as attributes. |
| `Sorting.SwapIfOutOfOrder` | cse325.c:240-244 | Exchanges positions i and j exactly when the key at i is greater. Nothing else changes. |
| `Sorting.InnerLoop` | cse325.c:239-245 | The inner loop leaves `a[..n]` equal to `InnerPass` of its old contents. |
| `Sorting.ExchangeSortInPlace` | cse325.c:237-260 | Implements both sorting functions, which differ only in the key. `a[..n]` becomes `ExchangeSort` of its old contents, sorted by the key and multiset-equal to the old contents. The rest of the array is untouched. |
| `Sorting.SortProcessesByBurstTime` | cse325.c:237-247 | `a[..n]` is sorted ascending by burst time, is a permutation of the old contents, and is exactly the exchange-sorted table. |
| `Sorting.SortProcessesByPriority` | cse325.c:250-260 | `a[..n]` is sorted ascending by priority number, is a permutation of the old contents, and is exactly the exchange-sorted table. |
| `RoundRobin.FinishBudget` | cse325.c:190-196 | The budget at the start of a burst's finishing scan is below the burst and within one quantum of it. |
| `RoundRobin.FinishBudgetOfScan` | cse325.c:190-196 | A burst left over after the scans that offered t units finishes in the next scan. |
| `RoundRobin.UsedWithinWork` | cse325.c:186-203 | Whatever budget the scans have offered, the CPU time a range of processes has used lies between 0 and the sum of its positive bursts. So the clock never passes the total work. |
| `RoundRobin.UsedAllDone` | cse325.c:183-206 | Once the budget covers every burst in a range, that range has used exactly the sum of its positive bursts. |
| `RoundRobin.MidScanAtStart` | cse325.c:172-179 | After initialization, with the clock at 0, the state is the closed form at budget 0: every remaining entry is the burst, every waiting time is 0, and nothing has been used. |
| `RoundRobin.MidScanAdvance` | cse325.c:190-203 | A slice that leaves process i at budget t + q moves the scan state one position forward. |
| `RoundRobin.MidScanSkip` | cse325.c:187 | A process whose remaining burst is not positive is skipped. The state and the clock stay as they are, and in the closed form that process has nothing left at budget t. |
| `RoundRobin.MidScanFinal` | cse325.c:183-206 | After a scan that found no work, the table is the closed-form Round-Robin table and the clock is the total work. Every process that had work has a remaining entry of 0. |
| `RoundRobin.CompletionBounds` | cse325.c:196-201 | A process with positive burst completes no earlier than its burst and no later than the total work. The CPU is never idle. |
| `RoundRobin.RoundRobinTimes` | cse325.c:176-206 | Order and attributes are unchanged. A process with positive burst gets turnaround = completion - arrival = waiting + burst, with burst <= completion <= total work. A process that never runs keeps waiting 0 and its old completion and turnaround. |
| `RoundRobin.InitializeRemaining` | cse325.c:172-179 | The new remaining-burst array has one entry per process, equal to its burst time. Every waiting time is reset to 0 and nothing else changes. |
| `RoundRobin.RunSlice` | cse325.c:190-203 | A slice runs one quantum, or finishes the process and records its times. The scan state moves past the process, consistent with the closed form, and the clock moves forward. |
| `RoundRobin.Scan` | cse325.c:184-205 | One full scan moves the whole state one quantum further along the closed form. It reports all processes completed exactly when it found no work, in which case the clock did not move. |
| `RoundRobin.RoundRobinScheduling` | cse325.c:169-206 | Terminates for every quantum > 0. `a[..n]` becomes the closed-form Round-Robin table. The final clock equals the sum of the positive bursts, and the final remaining-burst entry is 0 for every process that had work. |
| `Schedulers.SortThenDispatch` | cse325.c:144-166 | Sorting by a key and then dispatching gives a table sorted by that key, with the input's attributes as a multiset. Every process has turnaround = completion - arrival = waiting + burst and waiting >= 0. |
| `Schedulers.FirstComeFirstServe` | cse325.c:122-141 | `a[..n]` becomes the dispatched table in input order. Attributes are unchanged, the turnaround identities hold, and waiting >= 0. |
| `Schedulers.ShortestJobFirst` | cse325.c:144-166 | `a[..n]` is the exchange-sorted-by-burst table, then dispatched. It is sorted by burst. Its attribute multiset equals the input's. The turnaround identities hold and waiting >= 0. |
| `Schedulers.PriorityScheduling` | cse325.c:212-234 | The same as SJF, but sorted by priority number, lowest first. |
| `Schedulers.CopyProcessArray` | cse325.c:115-119 | `destination[..n]` equals `source[..n]`. The rest of `destination` and all of `source` are unchanged. |
| `Schedulers.MenuPass` | cse325.c:82-108 | Makes a fresh copy and runs the chosen policy on it. Choice 3 with a quantum <= 0 is rejected and leaves the copy as it is. The original table never changes. |
| `Schedulers.SamePassTwice` | cse325.c:82-101 | Two passes with the same choice on the same original give identical working tables. |
| `Examples.FirstComeFirstServeExample` | cse325.c:128-138 | FCFS on P1(0,5), P2(1,3), P3(2,8) gives completions 5, 8, 16 and waiting times 0, 4, 6. |
| `Examples.ShortestJobFirstExample` | cse325.c:148-163 | SJF on the same table runs P2, P1, P3. Completions are 4, 9, 17 and waiting times 0, 4, 7, because the clock first moves to P2's arrival at 1. |
| `Examples.PrioritySchedulingExample` | cse325.c:216-231 | P1(0,4,prio 2), P2(0,3,prio 1) run as P2, P1. Completions are 3, 7 and waiting times 0, 3. |
| `Examples.ExchangeSortNotStable` | cse325.c:238-246 | Bursts 2 (P1), 2 (P2), 1 (P3) sort to P3, P2, P1. Tied records do not keep their input order. |
| `Examples.RoundRobinExample` | cse325.c:183-206 | Quantum 2 on P1(0,5), P2(0,3): P2 completes at 7 with waiting 4, and P1 at 8 with waiting 3. |
| `Examples.RoundRobinNegativeWaiting` | cse325.c:196-199 | Quantum 2 on P1(0,1), P2(10,1): P2 completes at 2 with waiting 2 - 1 - 10 = -9. |
| `Examples.SingleProcess` | cse325.c:128-206 | A single process with any arrival time a >= 0 waits 0 under FCFS, SJF and Priority. It completes at a + burst, with turnaround equal to its burst. Under Round-Robin it completes at its burst time and its waiting time is -a. |

The model follows `cse325.c` where it departs from the textbook behaviour of these policies:

- The sorts are not stable. Equal keys are not kept in input order (`Examples.ExchangeSortNotStable`).
- SJF and Priority fix the dispatch order once, by key alone. The dispatch loop still moves the clock to each process's arrival. So in the three-process SJF example the first completion is 4, not 3.
- Round-Robin never looks at arrival times. Its waiting time `completion - burst - arrival` can be negative (`Examples.RoundRobinNegativeWaiting`). A lone process arriving at a > 0 gets waiting -a under Round-Robin (`Examples.SingleProcess`).
- `roundRobinScheduling` does not check its quantum. The caller checks it (cse325.c:94), prints a message and skips the run. That is a precondition of `RoundRobinScheduling` and the `QuantumRejected` outcome of `MenuPass`. There is no error result for an empty table; the caller rejects counts outside 1..100 (cse325.c:44).

## Left out

- `main`'s console input, the prompts, the menu loop and the exit codes (cse325.c:30-112). These are console I/O. `MenuPass` models one pass of the loop, taking the choice and the quantum as parameters.
- `displayProcessTable` and `displayGanttChart` (cse325.c:263-315). These are `printf` formatting only. The timeline they print is not modelled.
- `calculateAverageWaitingTime` and the average turnaround (cse325.c:282-288, 318-326). These use `float` division. The model states the integer totals instead (`Processes.TotalsAgree`, `Dispatch.DispatchedTotals`).
- `MAX_PROCESSES` (cse325.c:5) and C `int` overflow. Integers are unbounded, and an array of any length at least `n` is accepted.
- A negative `numberOfProcesses`. The count is a `nat`. The caller never passes one. For a negative count the loops of the other functions would do nothing, but `roundRobinScheduling` first declares `int remainingBurstTime[numberOfProcesses]` (cse325.c:172), and a negative length there is undefined behaviour in C.
- `RoundRobinScheduling`: a quantum <= 0 is excluded by a precondition. With such a quantum and a positive burst, the C loop never terminates, and the only caller never passes one.
- `RoundRobinScheduling`: its two results are ghost. They expose the final clock and the local remaining-burst array, which the C function keeps to itself.
