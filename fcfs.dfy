/** First-come, first-serve scheduling: FCFSSchedule in Project1/main.go,
    without the table rendering and with integer totals in place of the
    float averages. */
module Fcfs {
  import opened Scheduling

  /** The value FCFSSchedule's `waitingTime` holds while it handles process
      `i`: recomputed as (bursts served so far) - arrival when the arrival is
      positive, otherwise carried over from the previous process (0 at first). */
  function CarriedWait(ps: seq<Process>, i: nat): int
    requires i < |ps|
  {
    if ps[i].arrivalTime > 0 then BurstsBefore(ps, i) - ps[i].arrivalTime
    else if i == 0 then 0
    else CarriedWait(ps, i - 1)
  }

  /** The table row FCFSSchedule builds for process `p` with wait `w`. */
  function CarriedRow(p: Process, w: int): ScheduleRow {
    ScheduleRow(p.processId, p.priority, p.burstDuration, p.arrivalTime,
                w, p.burstDuration + w, p.burstDuration + p.arrivalTime + w)
  }

  /** The slice FCFSSchedule logs for process `i`: it starts at the carried
      wait after the arrival and stops at the running sum of the bursts. */
  function CarriedSlice(ps: seq<Process>, i: nat): TimeSlice
    requires i < |ps|
  {
    TimeSlice(ps[i].processId, CarriedWait(ps, i) + ps[i].arrivalTime, BurstsBefore(ps, i + 1))
  }

  /** FCFSSchedule as written: one slice per process in input order; the
      service cursor is the running sum of bursts (idle time is never added),
      and each row's wait, turnaround and exit follow from the carried wait. */
  method FCFSSchedule(processes: seq<Process>)
    returns (gantt: seq<TimeSlice>, schedule: seq<ScheduleRow>,
             totalWait: int, totalTurnaround: int, lastCompletion: int)
    ensures |gantt| == |schedule| == |processes|
    ensures forall i :: 0 <= i < |processes| ==> gantt[i] == CarriedSlice(processes, i)
    ensures forall i :: 0 <= i < |processes| ==> schedule[i] == CarriedRow(processes[i], CarriedWait(processes, i))
    ensures totalWait == TotalWait(schedule) && totalTurnaround == TotalTurnaround(schedule)
    ensures lastCompletion == if processes == [] then 0 else schedule[|processes| - 1].exit
  {
    var serviceTime := 0;
    var waitingTime := 0;
    gantt, schedule := [], [];
    totalWait, totalTurnaround, lastCompletion := 0, 0, 0;
    for i := 0 to |processes|
      invariant serviceTime == BurstsBefore(processes, i)
      invariant waitingTime == if i == 0 then 0 else CarriedWait(processes, i - 1)
      invariant |gantt| == |schedule| == i
      invariant forall k {:trigger gantt[k]} :: 0 <= k < i ==> gantt[k] == CarriedSlice(processes, k)
      invariant forall k {:trigger schedule[k]} :: 0 <= k < i ==> schedule[k] == CarriedRow(processes[k], CarriedWait(processes, k))
      invariant totalWait == TotalWait(schedule) && totalTurnaround == TotalTurnaround(schedule)
      invariant lastCompletion == if i == 0 then 0 else schedule[i - 1].exit
    {
      var p := processes[i];
      if p.arrivalTime > 0 {
        waitingTime := serviceTime - p.arrivalTime;
      }
      assert waitingTime == CarriedWait(processes, i);
      totalWait := totalWait + waitingTime;
      var start := waitingTime + p.arrivalTime;
      var turnaround := p.burstDuration + waitingTime;
      totalTurnaround := totalTurnaround + turnaround;
      var completion := p.burstDuration + p.arrivalTime + waitingTime;
      lastCompletion := completion;
      var row := ScheduleRow(p.processId, p.priority, p.burstDuration, p.arrivalTime,
                             waitingTime, turnaround, completion);
      TotalsAppend(schedule, row);
      schedule := schedule + [row];
      serviceTime := serviceTime + p.burstDuration;
      gantt := gantt + [TimeSlice(p.processId, start, serviceTime)];
    }
  }

  /** What FCFSSchedule's slices and rows say: each slice names its process,
      starts at the carried wait after its arrival and stops at the sum of
      the bursts so far; each row copies the record's columns and the carried
      wait, its turnaround is burst plus wait, and its exit is both the
      slice's start plus the burst and the arrival plus the turnaround. */
  lemma CarriedColumns(ps: seq<Process>, gantt: seq<TimeSlice>, schedule: seq<ScheduleRow>)
    requires |gantt| == |schedule| == |ps|
    requires forall k :: 0 <= k < |ps| ==> gantt[k] == CarriedSlice(ps, k)
    requires forall k :: 0 <= k < |ps| ==> schedule[k] == CarriedRow(ps[k], CarriedWait(ps, k))
    ensures forall i :: 0 <= i < |ps| ==>
      gantt[i].pid == ps[i].processId &&
      gantt[i].start == CarriedWait(ps, i) + ps[i].arrivalTime &&
      gantt[i].stop == BurstsBefore(ps, i + 1)
    ensures forall i :: 0 <= i < |ps| ==>
      schedule[i].processId == ps[i].processId &&
      schedule[i].priority == ps[i].priority &&
      schedule[i].burstDuration == ps[i].burstDuration &&
      schedule[i].arrivalTime == ps[i].arrivalTime &&
      schedule[i].waitingTime == CarriedWait(ps, i) &&
      schedule[i].turnaround == ps[i].burstDuration + schedule[i].waitingTime &&
      schedule[i].exit == gantt[i].start + ps[i].burstDuration &&
      schedule[i].exit == ps[i].arrivalTime + schedule[i].turnaround
  {
  }

  /** On sorted input with non-negative arrivals, the arrival-0 processes form
      a prefix, so the carried wait of each of them is still the initial 0. */
  lemma {:induction false} CarriedWaitAtZeroArrival(ps: seq<Process>, i: nat)
    requires SortedByArrival(ps) && forall k :: 0 <= k < |ps| ==> ps[k].arrivalTime >= 0
    requires i < |ps| && ps[i].arrivalTime == 0
    ensures CarriedWait(ps, i) == 0
  {
    if i > 0 {
      assert ps[i - 1].arrivalTime <= ps[i].arrivalTime;
      CarriedWaitAtZeroArrival(ps, i - 1);
    }
  }

  /** Where FCFSSchedule starts each process on sorted input with
      non-negative arrivals: a process with a positive arrival starts exactly
      at the sum of the earlier bursts, one with arrival 0 at time 0. */
  lemma FcfsStartTime(ps: seq<Process>, i: nat)
    requires SortedByArrival(ps) && forall k :: 0 <= k < |ps| ==> ps[k].arrivalTime >= 0
    requires i < |ps|
    ensures CarriedWait(ps, i) + ps[i].arrivalTime
         == if ps[i].arrivalTime > 0 then BurstsBefore(ps, i) else 0
  {
    if ps[i].arrivalTime == 0 {
      CarriedWaitAtZeroArrival(ps, i);
    }
  }

  /** Counterexample: two processes arriving at time 0 with bursts 5 and 3.
      The second keeps the carried wait 0, so its row says it ran from 0 to 3,
      while its slice runs from 0 to 8 and overlaps the first one's. */
  lemma ArrivalZeroWaitNotRecomputed()
    ensures var ps := [Process(1, 0, 5, 0), Process(2, 0, 3, 0)];
      CarriedWait(ps, 1) + ps[1].arrivalTime == 0 &&
      BurstsBefore(ps, 1) == 5 && BurstsBefore(ps, 2) == 8
  {
  }

  /** Counterexample: an idle gap. The first process (arrival 0, burst 1)
      ends at 1; the second arrives at 5. Its wait is computed as 1 - 5 = -4
      and its slice starts at 1, before it arrives. */
  lemma IdleGapGivesNegativeWait()
    ensures var ps := [Process(1, 0, 1, 0), Process(2, 5, 1, 0)];
      CarriedWait(ps, 1) == -4 &&
      CarriedWait(ps, 1) + ps[1].arrivalTime == 1 < ps[1].arrivalTime
  {
  }

  function Max(a: int, b: int): int {
    if a < b then b else a
  }

  /** The table row of process `p` run in slice `s`: it waits from arrival to
      the slice's start and exits when the slice stops. */
  function RowFor(p: Process, s: TimeSlice): ScheduleRow {
    ScheduleRow(p.processId, p.priority, p.burstDuration, p.arrivalTime,
                s.start - p.arrivalTime, s.stop - p.arrivalTime, s.stop)
  }

  /** Slice `s` runs all of `p`'s burst, not before it arrives. */
  predicate Serves(p: Process, s: TimeSlice) {
    s.pid == p.processId && s.start >= p.arrivalTime && s.stop == s.start + p.burstDuration
  }

  /** Where the corrected first-come, first-serve starts process `i`: on
      arrival, or when the previous process stops if that is later. */
  function CorrectedStart(ps: seq<Process>, i: nat): int
    requires i < |ps|
  {
    if i == 0 then ps[0].arrivalTime
    else Max(CorrectedStart(ps, i - 1) + ps[i - 1].burstDuration, ps[i].arrivalTime)
  }

  function CorrectedSlice(ps: seq<Process>, i: nat): TimeSlice
    requires i < |ps|
  {
    TimeSlice(ps[i].processId, CorrectedStart(ps, i), CorrectedStart(ps, i) + ps[i].burstDuration)
  }

  /** The corrected log runs forward: each slice serves its whole process
      after its arrival, and starts when the previous one stops or, if the CPU
      was idle, on arrival; no slice stops after the last one. */
  lemma CorrectedLogServes(ps: seq<Process>, g: seq<TimeSlice>)
    requires ValidRecords(ps) && |g| == |ps|
    requires forall k :: 0 <= k < |ps| ==> g[k] == CorrectedSlice(ps, k)
    ensures Ordered(g)
    ensures forall i :: 0 <= i < |ps| ==> Serves(ps[i], g[i])
    ensures ps != [] ==> g[0].start == ps[0].arrivalTime
    ensures forall i :: 0 < i < |ps| ==> g[i].start == Max(g[i - 1].stop, ps[i].arrivalTime)
    ensures forall i :: 0 <= i < |ps| ==> 0 <= g[i].stop <= g[|ps| - 1].stop
  {
    forall i | 0 < i < |ps| ensures g[i - 1].stop <= g[i].start {
      assert g[i - 1] == CorrectedSlice(ps, i - 1) && g[i] == CorrectedSlice(ps, i);
    }
    forall i | 0 <= i < |ps| ensures 0 <= g[i].stop <= g[|ps| - 1].stop {
      CorrectedStopsGrow(ps, i, |ps| - 1);
    }
  }

  /** Corrected stops never decrease and are never negative. */
  lemma {:induction false} CorrectedStopsGrow(ps: seq<Process>, k: nat, n: nat)
    requires ValidRecords(ps) && k <= n < |ps|
    ensures 0 <= CorrectedSlice(ps, k).stop <= CorrectedSlice(ps, n).stop
    decreases n
  {
    if k < n {
      CorrectedStopsGrow(ps, k, n - 1);
    } else if k > 0 {
      CorrectedStopsGrow(ps, k - 1, k - 1);
    }
  }

  /** The loop of the corrected first-come, first-serve: a process waits
      for the cursor or, if the CPU is idle, starts on arrival; the cursor
      then moves past its burst. */
  method ServeInArrivalOrder(processes: seq<Process>)
    returns (gantt: seq<TimeSlice>, schedule: seq<ScheduleRow>,
             totalWait: int, totalTurnaround: int, lastCompletion: int)
    requires ValidRecords(processes)
    ensures |gantt| == |schedule| == |processes|
    ensures forall i :: 0 <= i < |processes| ==> gantt[i] == CorrectedSlice(processes, i)
    ensures forall i :: 0 <= i < |processes| ==> schedule[i] == RowFor(processes[i], gantt[i])
    ensures totalWait == TotalWait(schedule) && totalTurnaround == TotalTurnaround(schedule)
    ensures lastCompletion == if processes == [] then 0 else gantt[|processes| - 1].stop
  {
    var serviceTime := 0;
    gantt, schedule := [], [];
    totalWait, totalTurnaround, lastCompletion := 0, 0, 0;
    for i := 0 to |processes|
      invariant |gantt| == |schedule| == i
      invariant serviceTime == if i == 0 then 0 else CorrectedSlice(processes, i - 1).stop
      invariant lastCompletion == serviceTime
      invariant forall k {:trigger gantt[k]} :: 0 <= k < i ==> gantt[k] == CorrectedSlice(processes, k)
      invariant forall k {:trigger schedule[k]} :: 0 <= k < i ==>
        schedule[k] == RowFor(processes[k], CorrectedSlice(processes, k))
      invariant totalWait == TotalWait(schedule) && totalTurnaround == TotalTurnaround(schedule)
    {
      var p := processes[i];
      var waitingTime := 0;
      if serviceTime > p.arrivalTime {
        waitingTime := serviceTime - p.arrivalTime;
      }
      var start := p.arrivalTime + waitingTime;
      var completion := start + p.burstDuration;
      var turnaround := completion - p.arrivalTime;
      totalWait := totalWait + waitingTime;
      totalTurnaround := totalTurnaround + turnaround;
      var row := ScheduleRow(p.processId, p.priority, p.burstDuration, p.arrivalTime,
                             waitingTime, turnaround, completion);
      TotalsAppend(schedule, row);
      schedule := schedule + [row];
      gantt := gantt + [TimeSlice(p.processId, start, completion)];
      serviceTime := completion;
      lastCompletion := completion;
    }
  }

  /** First-come, first-serve without the carried-wait and idle-gap defects:
      in arrival order, each process runs its whole burst, starting on
      arrival or when the previous one stops, whichever is later; nobody
      waits a negative time, and the last completion is the latest exit. */
  method FCFSScheduleCorrected(processes: seq<Process>)
    returns (gantt: seq<TimeSlice>, schedule: seq<ScheduleRow>,
             totalWait: int, totalTurnaround: int, lastCompletion: int)
    requires ValidRecords(processes)
    ensures |gantt| == |schedule| == |processes|
    ensures Ordered(gantt)
    ensures forall i :: 0 <= i < |processes| ==> Serves(processes[i], gantt[i])
    ensures processes != [] ==> gantt[0].start == processes[0].arrivalTime
    ensures forall i :: 0 < i < |processes| ==>
      gantt[i].start == Max(gantt[i - 1].stop, processes[i].arrivalTime)
    ensures forall i :: 0 <= i < |processes| ==> schedule[i] == RowFor(processes[i], gantt[i])
    ensures forall i :: 0 <= i < |processes| ==> schedule[i].waitingTime >= 0
    ensures totalWait == TotalWait(schedule) && totalTurnaround == TotalTurnaround(schedule)
    ensures lastCompletion >= 0
    ensures forall i :: 0 <= i < |processes| ==> schedule[i].exit <= lastCompletion
    ensures processes != [] ==> lastCompletion == schedule[|processes| - 1].exit
  {
    gantt, schedule, totalWait, totalTurnaround, lastCompletion := ServeInArrivalOrder(processes);
    CorrectedLogServes(processes, gantt);
  }
}
