/** Process records, Gantt slices and schedule-table rows shared by both
    schedulers and by the statistics replay, with the sums over a Gantt log
    that the contracts are written in. Go's int64 fields are unbounded here. */
module Scheduling {

  /** One process of the input: `Process` in Project1/main.go. */
  datatype Process = Process(processId: int, arrivalTime: int, burstDuration: int, priority: int)

  /** One Gantt entry: process `pid` held the CPU from `start` to `stop`. */
  datatype TimeSlice = TimeSlice(pid: int, start: int, stop: int)

  /** One row of the schedule table: ID, Priority, Burst, Arrival, Wait, Turnaround, Exit. */
  datatype ScheduleRow = ScheduleRow(
    processId: int, priority: int, burstDuration: int, arrivalTime: int,
    waitingTime: int, turnaround: int, exit: int)

  predicate SortedByArrival(ps: seq<Process>) {
    forall i, j :: 0 <= i < j < |ps| ==> ps[i].arrivalTime <= ps[j].arrivalTime
  }

  /** Every record has a non-negative arrival and a positive burst. */
  predicate ValidRecords(ps: seq<Process>) {
    forall i :: 0 <= i < |ps| ==> ps[i].arrivalTime >= 0 && ps[i].burstDuration > 0
  }

  /** Input the schedulers are run on: valid records sorted by arrival. */
  predicate WellFormed(ps: seq<Process>) {
    SortedByArrival(ps) && ValidRecords(ps)
  }

  predicate UniqueIds(ps: seq<Process>) {
    forall i, j :: 0 <= i < j < |ps| ==> ps[i].processId != ps[j].processId
  }

  /** Sum of the burst durations of the first `i` processes. */
  function BurstsBefore(ps: seq<Process>, i: nat): int
    requires i <= |ps|
  {
    if i == 0 then 0 else BurstsBefore(ps, i - 1) + ps[i - 1].burstDuration
  }

  function Duration(s: TimeSlice): int {
    s.stop - s.start
  }

  /** Time the log gives to process `pid`. */
  function OwnTime(pid: int, g: seq<TimeSlice>): int {
    if g == [] then 0
    else OwnTime(pid, g[..|g| - 1]) + (if g[|g| - 1].pid == pid then Duration(g[|g| - 1]) else 0)
  }

  /** The log gives every record's process exactly that record's burst. */
  predicate GivesEachIdItsBurst(ps: seq<Process>, g: seq<TimeSlice>) {
    forall k :: 0 <= k < |ps| ==> OwnTime(ps[k].processId, g) == ps[k].burstDuration
  }

  /** Time the log gives to processes other than `pid`. */
  function OtherTime(pid: int, g: seq<TimeSlice>): int {
    if g == [] then 0
    else OtherTime(pid, g[..|g| - 1]) + (if g[|g| - 1].pid != pid then Duration(g[|g| - 1]) else 0)
  }

  /** Total time covered by the slices of the log. */
  function LogTime(g: seq<TimeSlice>): int {
    if g == [] then 0 else LogTime(g[..|g| - 1]) + Duration(g[|g| - 1])
  }

  /** Sum of the Wait column of a schedule table. */
  function TotalWait(rows: seq<ScheduleRow>): int {
    if rows == [] then 0 else TotalWait(rows[..|rows| - 1]) + rows[|rows| - 1].waitingTime
  }

  /** Sum of the Turnaround column of a schedule table. */
  function TotalTurnaround(rows: seq<ScheduleRow>): int {
    if rows == [] then 0 else TotalTurnaround(rows[..|rows| - 1]) + rows[|rows| - 1].turnaround
  }

  /** Appending a row adds its wait and turnaround to the column totals. */
  lemma TotalsAppend(rows: seq<ScheduleRow>, row: ScheduleRow)
    ensures TotalWait(rows + [row]) == TotalWait(rows) + row.waitingTime
    ensures TotalTurnaround(rows + [row]) == TotalTurnaround(rows) + row.turnaround
  {
    assert (rows + [row])[..|rows|] == rows;
  }

  /** Every slice of the log runs forward in time and starts no earlier than
      the previous one stops. */
  predicate Ordered(g: seq<TimeSlice>) {
    (forall j :: 0 <= j < |g| ==> g[j].start <= g[j].stop) &&
    (forall j :: 0 < j < |g| ==> g[j - 1].stop <= g[j].start)
  }

  /** In a log that runs forward, later slices stop no earlier. */
  lemma {:induction false} OrderedStopsGrow(g: seq<TimeSlice>, i: nat, j: nat)
    requires Ordered(g) && i <= j < |g|
    ensures g[i].stop <= g[j].stop
    decreases j - i
  {
    if i < j {
      OrderedStopsGrow(g, i, j - 1);
    }
  }

  /** Splitting the log by owner loses no time. */
  lemma {:induction false} OwnPlusOther(pid: int, g: seq<TimeSlice>)
    ensures OwnTime(pid, g) + OtherTime(pid, g) == LogTime(g)
  {
    if g != [] {
      OwnPlusOther(pid, g[..|g| - 1]);
    }
  }

  /** In a log whose slices run forward, a process's time only grows as the log grows. */
  lemma {:induction false} OwnTimeMonotone(pid: int, g: seq<TimeSlice>, m: nat)
    requires m <= |g|
    requires forall j :: 0 <= j < |g| ==> g[j].start <= g[j].stop
    ensures OwnTime(pid, g[..m]) <= OwnTime(pid, g)
  {
    if m < |g| {
      assert g[..|g| - 1][..m] == g[..m];
      OwnTimeMonotone(pid, g[..|g| - 1], m);
    } else {
      assert g[..m] == g;
    }
  }
}
