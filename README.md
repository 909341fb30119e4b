# CPU scheduling simulation, modelled in Dafny

This project models the scheduling core of `Project1/main.go`, a small CPU-scheduling simulator. The core has three parts.

**`FCFSSchedule`** is a first-come, first-serve pass over process records sorted by arrival.
- It moves a service cursor forward by each burst.
- For every process it computes wait, start, turnaround and completion.
- It logs one Gantt slice per process.

**`SJFSchedule`** is a preemptive shortest-remaining-burst simulation.
- Processes that arrive at the same time join the waiting queue together.
- The queue is sorted by burst.
- At each arrival the running process is charged with the elapsed time. It is preempted only if the head of the queue is strictly shorter.
- Between arrivals, time is fast-forwarded by whole remaining bursts.
- The Gantt log is kept by the closures `ganttStart`, `ganttStop` and `ganttSwap`, with a `timeSlot` cursor. The queue is kept by `waitingQueueAdd` and `waitingQueueRemove`.
- The remaining burst is written back into the caller's records.

**`calculateAndPrintStats`** replays the Gantt log once per process.
- It gives each process its computation time, its waiting time and a finish time.
- It also computes the column totals and the latest finish.

## Model structure

- `scheduling.dfy` (`Scheduling`): the records `Process`, `TimeSlice` and `ScheduleRow`, and the sums over a log: time given to a process, time given to the others, and total time.
- `burst_order.dfy` (`BurstOrder`): the burst sort of the waiting queue. It is a stable insertion sort. `Turn` and `Run` see only `SortWaitingQueue`'s contract: the result is a permutation and the bursts do not decrease. Go's `sort.Slice` promises the same and no more.
- `fcfs.dfy` (`Fcfs`): `FCFSSchedule` as written, and a corrected version (see Findings).
- `statistics.dfy` (`Statistics`): the replay loop of `calculateAndPrintStats`. It is specified by the function `Replay`.
- `sjf_state.dfy` (`SjfState`): the SJF state as a value `Sim`, with its invariant `Inv` and the transitions the Go code makes:
  - enqueue and sort;
  - elapse, preempt and dispatch at an arrival;
  - complete while fast-forwarding.

  Each transition has a lemma showing that it keeps `Inv`.
  - `Inv` includes a conservation law. For every process, the closed slices, plus the time run in the open slice, plus the remaining burst, equal its original burst.
  - A ghost `owners` sequence names the process of each slice, so conservation needs no assumption that ids are distinct.
- `sjf.dfy` (`Sjf`): the class `SjfScheduler`.
  - Its fields are the Go locals: the process array (shared with the caller and changed in place), `gantt`, `time`, `timeSlot`, `waitingQueue` and `running`.
  - The closures and the phases of the outer loop are methods. Each is proved to perform the matching `SjfState` transition.
  - `SJFSchedule` runs the simulation and then the statistics.
- `reevaluation.dfy` (`Reevaluation`): the choice of the next process at a completion (Findings, row 4).

## Model

| member | source | states |
|---|---|---|
| Scheduling.TotalsAppend | Project1/main.go:98-103 | adding a row adds its wait and turnaround to the running totals |
| Scheduling.OwnPlusOther | Project1/main.go:147-152 | splitting the scanned slices into the process's own and the others' loses no time: own + other = total log time |
| Scheduling.OwnTimeMonotone | Project1/main.go:147-149 | in a log whose slices run forward, a process's accumulated computation time only grows as more of the log is scanned |
| Scheduling.OrderedStopsGrow | Project1/main.go:153-155 | in a log whose slices run forward, a later slice never stops before an earlier one, so a replay that reads more slices reports a finish no earlier |
| BurstOrder.Insert | Project1/main.go:230-232 | inserting an index into a burst-sorted queue gives a burst-sorted queue holding exactly one more copy of that index |
| BurstOrder.SortByBurst | Project1/main.go:228-232 | the queue sorted by burst is a permutation of the queue (same multiset) whose bursts do not decrease |
| BurstOrder.HeadIsShortest | Project1/main.go:234 | the head of the sorted queue has a burst no longer than that of any queued process |
| Fcfs.FCFSSchedule | Project1/main.go:84-124 | as written: one slice and one row per process, in input order; slice i stops at the sum of the first i+1 bursts (idle time never added); its start, and the row's wait, turnaround and exit, follow from the wait carried by `CarriedWait`; the totals are the column sums; the last completion is the last row's exit |
| Fcfs.CarriedColumns | Project1/main.go:95-123 | each FCFS slice names its process, starts at wait + arrival and stops at the running burst sum; each row copies id, priority, burst and arrival, and has turnaround = burst + wait and exit = start + burst = arrival + turnaround |
| Fcfs.CarriedWaitAtZeroArrival | Project1/main.go:95-97 | on sorted input with non-negative arrivals, a process arriving at 0 keeps the initial wait 0, because the wait is only recomputed for positive arrivals |
| Fcfs.FcfsStartTime | Project1/main.go:95-100 | on sorted input with non-negative arrivals, a process with positive arrival starts exactly at the sum of earlier bursts; one with arrival 0 starts at 0 |
| Fcfs.ArrivalZeroWaitNotRecomputed | Project1/main.go:95-123 | counterexample: for two processes arriving at 0 with bursts 5 and 3, the second one's row says it starts at 0, while its slice runs from 0 to 8 and overlaps the first slice |
| Fcfs.IdleGapGivesNegativeWait | Project1/main.go:95-100 | counterexample: after an idle gap (burst 1 ending at 1, next arrival 5) the wait is -4 and the start is 1, before the arrival |
| Fcfs.CorrectedLogServes | Project1/main.go:94-123 | the corrected FCFS log runs forward; each slice runs its process's whole burst, starting no earlier than its arrival, at max(previous stop, arrival), and the first one at its arrival; every stop is non-negative and at most the last stop |
| Fcfs.CorrectedStopsGrow | Project1/main.go:105-106 | corrected completion times never decrease along the input and are non-negative |
| Fcfs.ServeInArrivalOrder | Project1/main.go:94-124 | the corrected loop logs exactly the reference slice `CorrectedSlice` per process, with rows wait = start - arrival, turnaround = stop - arrival and exit = stop; the totals are the column sums; the last completion is the last stop |
| Fcfs.FCFSScheduleCorrected | Project1/main.go:84-134 | corrected FCFS: an ordered log serving each process's whole burst from max(previous stop, arrival); no negative waits; the last completion is at least every exit and equals the last one |
| Statistics.ScanLength | Project1/main.go:147-156 | the replay reads slices up to and including the first one with which the process's own time reaches its burst, or the whole log; no shorter prefix covers the burst |
| Statistics.ReplayLog | Project1/main.go:143-157 | the inner loop computes exactly `Replay`: own time and others' time over the slices read, and as finish time the stop of the covering slice, or 0 when none covers |
| Statistics.CalculateStats | Project1/main.go:136-172 | one row per process equal to `StatsRow` of its replay (turnaround = wait + computation); the totals are the column sums; the last completion is at least 0 and at least every finish, and is 0 or some process's finish |
| Statistics.ReplayTurnaroundIsScannedTime | Project1/main.go:147-164 | the reported turnaround (wait + computation) equals the total time of the slices the replay read |
| Statistics.ReplayFinishesInOwnSlice | Project1/main.go:148-156 | if the log gives a process at least its burst, the replay finishes it at the stop of one of its own slices: the first one with which its computation reaches the burst |
| Statistics.CoveringSlice | Project1/main.go:148-156 | the slice that first brings a process's own time up to its burst belongs to that process, and without it the burst is not reached |
| Statistics.ReplayComputesWholeBurst | Project1/main.go:147-156 | if a forward log gives a process exactly its burst, the replay reports that burst as its computation time and finishes it at the stop of its own last slice |
| Statistics.ReplayUncovered | Project1/main.go:146-157 | if a forward log gives a process less than its burst, the replay reads the whole log and reports finish time 0 |
| Statistics.ScanLengthMonotone | Project1/main.go:147-157 | for the same id, the replay for a smaller burst stops at or before the slice where the replay for a larger burst stops |
| SjfState.ServedClose | Project1/main.go:198-201 | closing the open slice at the current time adds its duration to its owner's served time and to no one else's |
| SjfState.ArrivalRunsShortest | Project1/main.go:234-261 | after the decision at an arrival, the clock is at the arrival, the CPU is busy, and the process on it has a remaining burst no longer than that of any waiting process; a running process keeps the CPU exactly when the queue head is not strictly shorter (ties do not preempt) |
| SjfState.DrainedStops | Project1/main.go:263-278 | the fast-forward loop leaves the bursts alone; it ends either idle with an empty queue, or with a running process that still has burst left when the next process arrives; it never moves the clock past that arrival |
| SjfState.FinishedLogStartsAfterArrival | Project1/main.go:220-261 | in a finished log every slice has an owner with that id whose arrival is no later than the slice start: no process is run before it arrives |
| SjfState.ExtendsTrans | Project1/main.go:220-279 | a state that continues a continuation of `s` continues `s`: the clock only moves forward and closed slices stay closed across turns |
| SjfState.ArrivalExtends | Project1/main.go:236-261 | the decision at an arrival no earlier than now keeps every closed slice and does not move the clock back |
| SjfState.CompletionExtends | Project1/main.go:268-277 | a completion keeps every closed slice and moves the clock forward by the remaining burst |
| SjfState.DrainedExtends | Project1/main.go:263-278 | while every running or waiting process has burst left, the fast-forward loop keeps every closed slice and never moves the clock back |
| SjfState.InitKeepsInv | Project1/main.go:186-219 | the starting state (empty log, empty queue, CPU idle, time 0) satisfies the invariant |
| SjfState.Span | Project1/main.go:223-226 | the indices enqueued by the grouping loop: exactly lo, lo + 1, ..., hi - 1 in order |
| SjfState.EnqueueKeepsInv | Project1/main.go:223-224 | appending the next process to arrive to the queue keeps the invariant, with one more process arrived |
| SjfState.EnqueueKeepsBalance | Project1/main.go:223-224 | enqueuing keeps burst conservation for every process |
| SjfState.ReorderKeepsInv | Project1/main.go:230-232 | replacing the queue by any permutation of it keeps the invariant |
| SjfState.ElapseKeepsInv | Project1/main.go:236-245 | moving the clock forward by less than the running process's remaining burst, and charging that process with it, keeps the invariant (remaining burst stays positive) |
| SjfState.SuspendKeepsInv | Project1/main.go:247-250 | preempting (close the slice now, append the running process to the back of the queue) keeps the invariant |
| SjfState.SuspendKeepsBalance | Project1/main.go:247-250 | preempting keeps burst conservation for every process |
| SjfState.FinishKeepsInv | Project1/main.go:268-272 | running the running process to the end of its remaining burst and closing its slice keeps the invariant |
| SjfState.TakeHead | Project1/main.go:212-216 | removing the head of a queue without repeats leaves a queue without repeats that lacks the head and keeps every other entry |
| SjfState.DispatchKeepsInv | Project1/main.go:249-260 | giving the idle CPU to the queue head and opening its slice now keeps the invariant, once every enqueued process has arrived |
| SjfState.CompleteLog | Project1/main.go:220-279 | at the end (all arrived, idle, queue empty) only bursts differ from the input records, each remaining burst is positive and no larger than the original, and the log is finished: ordered, never before arrival, every process given exactly its original burst |
| SjfState.OwnTimeIsServed | Project1/main.go:148-152 | with distinct ids, the time the log gives to a process's id equals the time it gives to that process |
| Sjf.SjfScheduler.constructor | Project1/main.go:186-219 | the simulation starts on the caller's array with empty log and queue, time 0, slot 0 and no process running, and satisfies the invariant |
| Sjf.SjfScheduler.GanttStart | Project1/main.go:191-197 | `ganttStart` appends a slice for the process, starting and stopping now |
| Sjf.SjfScheduler.GanttStop | Project1/main.go:198-201 | `ganttStop` sets the open slice's stop to now and advances `timeSlot` by one |
| Sjf.SjfScheduler.GanttSwap | Project1/main.go:202-205 | `ganttSwap` is `ganttStop` followed by `ganttStart` |
| Sjf.SjfScheduler.WaitingQueueAdd | Project1/main.go:209-211 | appends the index at the back of the queue |
| Sjf.SjfScheduler.WaitingQueueRemove | Project1/main.go:212-216 | returns the head and leaves the rest of the queue |
| Sjf.SjfScheduler.Arrive | Project1/main.go:224 | the next process joins the back of the queue and the invariant holds with one more arrived |
| Sjf.SjfScheduler.EnqueueArrivals | Project1/main.go:223-226 | every process that arrives with the first one joins the queue once, in input order; the returned index is the first process arriving later |
| Sjf.SjfScheduler.SortWaitingQueue | Project1/main.go:228-232 | the queue becomes a permutation of itself with nondecreasing bursts, and the invariant holds |
| Sjf.SjfScheduler.Elapse | Project1/main.go:236-245 | the clock moves to the arrival and the running process's burst is reduced by the elapsed time, in place |
| Sjf.SjfScheduler.Preempt | Project1/main.go:247-251 | the running process goes to the back of the queue, the head runs, and the slices are swapped |
| Sjf.SjfScheduler.Dispatch | Project1/main.go:258-261 | the idle CPU goes to the queue head, whose slice opens now |
| Sjf.SjfScheduler.ElapseAndPreempt | Project1/main.go:234-261 | the new state is the `Arrival` transition at the group's arrival time: the clock is there, a process runs, and the invariant holds |
| Sjf.SjfScheduler.Complete | Project1/main.go:268-277 | one fast-forward step is the `Completion` transition: the running process finishes, then the CPU falls idle or the head takes it |
| Sjf.SjfScheduler.FastForward | Project1/main.go:263-278 | the fast-forward loop computes `Drained`; it stops idle with an empty queue or with a process that the next arrival interrupts, never past that arrival |
| Sjf.SjfScheduler.Turn | Project1/main.go:220-278 | one outer turn is the transition `Turned`: the queue plus the arriving group, reordered as a burst-sorted permutation, goes through the decision at the group's arrival and then the fast-forward loop; the closed slices are kept and the clock does not go back (`Extends`); the invariant holds; a running process still has burst left at the next arrival, an idle CPU means an empty queue, and the clock is not past the next arrival |
| Sjf.SjfScheduler.Run | Project1/main.go:218-279 | at the end every process has arrived, the CPU is idle, nobody waits, only bursts changed in the records, each to a positive remaining burst no larger than the original, and the log is finished: ordered, never before arrival, every process given exactly its original burst |
| Sjf.LogGivesEachIdItsBurst | Project1/main.go:147-153 | with distinct ids, a finished log gives every process's id exactly its burst, which is what the replay's id comparison relies on |
| Sjf.Simulate | Project1/main.go:184-279 | the simulation overwrites only the bursts of the caller's records, each with a positive remaining burst no larger than the one passed in, and returns a finished log for the records as passed in |
| Sjf.SJFSchedule | Project1/main.go:184-283 | as written: only bursts change in the caller's records, each to a positive remaining burst no larger than the original; the log is ordered, starts no slice before its process arrives and, with distinct ids, gives every id its original burst; the rows are the replay against the mutated records, and with distinct ids each turnaround is at least wait + remaining burst and each exit no later than the replay against the original record gives; the latest completion is max(0, all exits) |
| Sjf.ExampleFirstTurn | Project1/main.go:220-278 | hand trace: the first turn of the example (A alone at 0) leaves A running |
| Sjf.ExampleSecondTurn | Project1/main.go:220-278 | hand trace: at 6, B preempts A (4 left), finishes at 7, and A resumes |
| Sjf.ExampleThirdTurn | Project1/main.go:220-278 | hand trace: at 8, C waits; A finishes at 11, C runs to 16; A's record is left at 3 |
| Sjf.MutatedBurstMisreportsFinish | Project1/main.go:143-157 | on the example log, the replay against A's mutated record (burst 3) reports A finishing at 6 after computing 6; against the record as passed in, it reports computation 10, wait 1, finish 11 |
| Sjf.FullBurstRow | Project1/main.go:147-166 | for a process that a forward log gives exactly its burst, the replay reports that burst as computation and, as exit, the stop of one of its own slices |
| Sjf.MutatedRowFinishesNoLater | Project1/main.go:143-157 | against a record whose burst was lowered to a positive remaining burst, the replay of a forward log giving the process its original burst reports at least the lowered burst as computation and a finish no later than against the original record |
| Sjf.AsWrittenRows | Project1/main.go:158-166 | over a finished log with distinct ids, every row computed from the remaining bursts has turnaround at least wait + remaining burst and an exit no later than the replay against the original record |
| Sjf.RowsOfCompleteLog | Project1/main.go:158-166 | over a finished log with distinct ids, every row has turnaround = wait + burst and exits at the stop of one of its own slices |
| Sjf.CopyRecords | Project1/main.go:186 | the working copy is a fresh array holding the same records |
| Sjf.SimulateOnCopy | Project1/main.go:184-279 | the simulation run on a fresh copy leaves the caller's records alone and returns a finished log for them |
| Sjf.SJFScheduleCorrected | Project1/main.go:184-283 | corrected: the simulation runs on a copy, so the rows are the replay against the bursts as requested; the log is ordered and starts no slice before its process arrives; with distinct ids it gives every id its burst, each turnaround is wait + burst and each exit ends a slice of the process's own; the latest completion is max(0, all exits) |
| Reevaluation.SuspendedInOrderKeepsOrder | Project1/main.go:247-250 | a preemption that puts the process back in burst order closes the same slice, queues the same processes and keeps the queue sorted |
| Reevaluation.CompletionRunsShortest | Project1/main.go:269-276 | with a sorted queue, a completion hands the CPU to a process no longer than any waiting one, and the queue stays sorted |
| Reevaluation.PreemptInOrderKeepsOrder | Project1/main.go:247-250 | a preemption in burst order followed by dispatch of the head keeps the queue sorted |
| Reevaluation.ElapsedKeepsOrder | Project1/main.go:236-245 | charging the running process with elapsed time leaves a burst-sorted queue sorted, since the running process is not in the queue |
| Reevaluation.DispatchedKeepsOrder | Project1/main.go:258-261 | giving the idle CPU to the head of a sorted queue leaves the rest sorted |
| Reevaluation.ArrivalInOrderKeepsOrder | Project1/main.go:234-261 | with the corrected preemption, every outcome of the decision at an arrival leaves the queue in burst order; with CompletionRunsShortest, every completion then runs a shortest waiting job |
| Reevaluation.ArrivalInOrderRunsShortest | Project1/main.go:234-261 | after the corrected decision at an arrival a process runs whose remaining burst is no longer than any waiting one's, and the queue is in burst order |
| Reevaluation.DrainedRunsShortest | Project1/main.go:263-278 | from a queue in burst order with a shortest job running, the fast-forward loop hands the CPU to a shortest waiting job at every completion: it ends with the queue in burst order and, unless idle, a shortest job running |
| Reevaluation.LateFirstTurn | Project1/main.go:220-278 | hand trace: A alone at 0 runs |
| Reevaluation.LateSort | Project1/main.go:223-232 | hand trace: B and C join the queue together at 2, and sorting leaves [B, C] |
| Reevaluation.SortOne | Project1/main.go:230-232 | sorting a one-entry queue leaves it unchanged |
| Reevaluation.LateElapse | Project1/main.go:236-245 | hand trace: the clock moves to 2 and A is charged, leaving 8 |
| Reevaluation.LateSecondArrival | Project1/main.go:247-251 | hand trace: B (3) preempts A (8 left); A goes to the back, giving the queue [C, A] |
| Reevaluation.CompletionSkipsShortest | Project1/main.go:269-276 | counterexample: the queue [C, A] is out of burst order, and at B's completion C (9 left) takes the CPU while A (8 left) waits |
| Reevaluation.InsertBeforeC | Project1/main.go:247-250 | corrected trace: A (8) goes in front of C (9) |
| Reevaluation.InsertBehindB | Project1/main.go:247-250 | corrected trace: A goes between B and C |
| Reevaluation.CorrectedPreemptOrder | Project1/main.go:247-250 | corrected trace: the queue before the decision is sorted, and the corrected preemption gives [B, A, C] |
| Reevaluation.CorrectedPreemptRunsShortest | Project1/main.go:269-276 | corrected trace: B runs with [A, C] waiting, so A takes the CPU at B's completion |

## Left out

- Argument handling, opening the input file and CSV loading (`main`, `openProcessingFile`, `loadProcesses`, `mustStrToInt`; Project1/main.go:17-62, 335-362): these are process I/O and library parsing. The loaded records enter the model as a parameter.
- The table and title rendering (`outputTitle`, `outputGantt`, `outputSchedule`; Project1/main.go:293-327): this is text output.
- The float64 averages and throughput: these are floating-point divisions, NaN/Inf for empty input. The integer column totals and the latest completion are modelled instead.
- The debug `fmt.Printf` in the fast-forward loop (Project1/main.go:275): output only.
- The commented-out priority and round-robin schedulers (Project1/main.go:285-287): they have no code.
- int64 overflow: every integer is unbounded, so wrap-around on huge bursts or arrivals is not modelled.
- The algorithm inside `sort.Slice`, and its instability. `SortWaitingQueue` promises only a nondecreasing permutation. The intended tie-break by input order is not a property of the code and is not claimed.
- Sjf.SjfScheduler.Run: requires arrival-sorted records with non-negative arrivals and positive bursts. The Go code assumes sorted input (line 218), and the loader does not check bursts. With a non-positive burst the Go loop can behave differently; that case is not modelled.
- Sjf.SjfScheduler.Run: its contract does not fix the exact log. The sort may order equal bursts either way, so the contract states the properties that every such order has.

## Findings

| source | as written | input that shows it | evidently intended | confidence | as-written member | corrected member |
|---|---|---|---|---|---|---|
| Project1/main.go:95-97 | `waitingTime` is recomputed only when the arrival is positive, so every process after the first that arrives at 0 keeps the carried wait 0 | processes (1, arrival 0, burst 5) and (2, arrival 0, burst 3): process 2 gets wait 0 and exit 3, while its slice runs from 0 to 8 | the wait is the time from arrival until the previous process stops (5 here) | high, not executed | Fcfs.ArrivalZeroWaitNotRecomputed | Fcfs.FCFSScheduleCorrected |
| Project1/main.go:95-117 | the service cursor ignores idle time and the wait is not clamped, so after an idle gap the wait is negative and the process starts before it arrives | processes (1, arrival 0, burst 1) and (2, arrival 5, burst 1): wait -4 and start 1 | the process starts on arrival (5) with wait 0, and the cursor jumps to it | high, not executed | Fcfs.IdleGapGivesNegativeWait | Fcfs.FCFSScheduleCorrected |
| Project1/main.go:184-282 | `processes := inputProcesses` shares the caller's slice. The simulation overwrites the bursts with remaining bursts (line 245), and the statistics then compare computation time against those remaining bursts | (1, arr 0, burst 10), (2, arr 6, burst 1), (3, arr 8, burst 5): A's burst is left at 3, so the replay stops after A's first slice and reports finish 6 and turnaround 6, instead of finish 11 and turnaround 11 | the statistics use the bursts as requested, with the simulation working on its own copy | high, not executed | Sjf.MutatedBurstMisreportsFinish | Sjf.SJFScheduleCorrected |
| Project1/main.go:247-276 | a preempted process goes to the back of the queue, and the queue is sorted only at arrivals, so at a completion the queue head need not be the shortest remaining job | (1, arr 0, burst 10), (2, arr 2, burst 3), (3, arr 2, burst 9): at 2 B preempts A, leaving the queue [C, A]; at 5 C (9 left) runs while A has 8 left | shortest remaining burst is re-evaluated at completions too, i.e. the preempted process rejoins in burst order | medium, not executed | Reevaluation.CompletionSkipsShortest | Reevaluation.ArrivalInOrderKeepsOrder |
