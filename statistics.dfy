/** Per-process statistics derived by replaying a Gantt log:
    calculateAndPrintStats in Project1/main.go, without the table rendering
    and with integer totals in place of the float averages. */
module Statistics {
  import opened Scheduling

  /** What one replay finds for one process. */
  datatype Replayed = Replayed(computationTime: int, waitingTime: int, finishTime: int)

  /** The first `m` slices give `p` at least its burst. */
  predicate Covered(p: Process, g: seq<TimeSlice>, m: nat)
    requires m <= |g|
  {
    OwnTime(p.processId, g[..m]) >= p.burstDuration
  }

  /** How many slices, counted from slice `from`, the replay for `p` reads:
      it stops after the first slice whose prefix covers the burst, or reads
      the whole log. */
  function ScanLength(p: Process, g: seq<TimeSlice>, from: nat): (m: nat)
    requires from <= |g|
    ensures from <= m <= |g|
    ensures forall j :: from < j < m ==> !Covered(p, g, j)
    ensures m < |g| ==> from < m && Covered(p, g, m)
    decreases |g| - from
  {
    if from == |g| then from
    else if Covered(p, g, from + 1) then from + 1
    else ScanLength(p, g, from + 1)
  }

  /** The replay of the log for `p`: its own and the others' time in the
      slices read, and the stop of the last slice read if that slice brought
      its own time up to its burst (0 otherwise). */
  function Replay(p: Process, g: seq<TimeSlice>): Replayed {
    var m := ScanLength(p, g, 0);
    Replayed(OwnTime(p.processId, g[..m]), OtherTime(p.processId, g[..m]),
             if m > 0 && Covered(p, g, m) then g[m - 1].stop else 0)
  }

  /** The schedule-table row for `p`: turnaround is wait plus computation. */
  function StatsRow(p: Process, r: Replayed): ScheduleRow {
    ScheduleRow(p.processId, p.priority, p.burstDuration, p.arrivalTime,
                r.waitingTime, r.waitingTime + r.computationTime, r.finishTime)
  }

  /** The inner loop of calculateAndPrintStats for process `p`: it walks
      the log, adding each slice to `p`'s computation time or to its waiting
      time, and stops at the slice with which the computation time reaches
      the burst, whose stop is then the finish time. */
  method ReplayLog(p: Process, gantt: seq<TimeSlice>) returns (r: Replayed)
    ensures r == Replay(p, gantt)
  {
    var computationTime := 0;
    var waitingTime := 0;
    var finishTime := 0;
    var j := 0;
    while j < |gantt|
      invariant 0 <= j <= |gantt|
      invariant computationTime == OwnTime(p.processId, gantt[..j])
      invariant waitingTime == OtherTime(p.processId, gantt[..j])
      invariant finishTime == 0
      invariant j > 0 ==> !Covered(p, gantt, j)
      invariant ScanLength(p, gantt, 0) == ScanLength(p, gantt, j)
    {
      assert gantt[..j + 1][..j] == gantt[..j];
      if gantt[j].pid == p.processId {
        computationTime := computationTime + (gantt[j].stop - gantt[j].start);
      } else {
        waitingTime := waitingTime + (gantt[j].stop - gantt[j].start);
      }
      if computationTime >= p.burstDuration {
        finishTime := gantt[j].stop;
        assert ScanLength(p, gantt, j) == j + 1;
        break;
      }
      j := j + 1;
    }
    if j == |gantt| {
      assert gantt[..j] == gantt;
    }
    r := Replayed(computationTime, waitingTime, finishTime);
  }

  /** calculateAndPrintStats: one replay of the log per process, the column
      totals, and the latest finish time (0 when none is later). */
  method CalculateStats(processes: seq<Process>, gantt: seq<TimeSlice>)
    returns (schedule: seq<ScheduleRow>, totalWait: int, totalTurnaround: int, lastCompletion: int)
    ensures |schedule| == |processes|
    ensures forall i :: 0 <= i < |processes| ==>
      schedule[i] == StatsRow(processes[i], Replay(processes[i], gantt))
    ensures totalWait == TotalWait(schedule) && totalTurnaround == TotalTurnaround(schedule)
    ensures lastCompletion >= 0
    ensures forall i :: 0 <= i < |processes| ==> schedule[i].exit <= lastCompletion
    ensures lastCompletion == 0 || exists i :: 0 <= i < |processes| && schedule[i].exit == lastCompletion
  {
    schedule := [];
    totalWait, totalTurnaround, lastCompletion := 0, 0, 0;
    ghost var latest := 0;
    for i := 0 to |processes|
      invariant |schedule| == i
      invariant forall k {:trigger schedule[k]} :: 0 <= k < i ==>
        schedule[k] == StatsRow(processes[k], Replay(processes[k], gantt))
      invariant totalWait == TotalWait(schedule) && totalTurnaround == TotalTurnaround(schedule)
      invariant lastCompletion >= 0
      invariant forall k :: 0 <= k < i ==> schedule[k].exit <= lastCompletion
      invariant lastCompletion == 0 || (0 <= latest < i && schedule[latest].exit == lastCompletion)
    {
      var r := ReplayLog(processes[i], gantt);
      var row := StatsRow(processes[i], r);
      TotalsAppend(schedule, row);
      schedule := schedule + [row];
      totalWait := totalWait + r.waitingTime;
      totalTurnaround := totalTurnaround + (r.waitingTime + r.computationTime);
      if r.finishTime > lastCompletion {
        lastCompletion := r.finishTime;
        latest := i;
      }
    }
  }

  /** The reported turnaround (wait plus computation) is the total time of
      the slices the replay read, whoever held them. */
  lemma ReplayTurnaroundIsScannedTime(p: Process, g: seq<TimeSlice>)
    ensures Replay(p, g).waitingTime + Replay(p, g).computationTime
         == LogTime(g[..ScanLength(p, g, 0)])
  {
    OwnPlusOther(p.processId, g[..ScanLength(p, g, 0)]);
  }

  /** When the log gives `p` at least its burst, the replay finishes `p` at
      the stop of one of its own slices: the first one with which its
      computation time reaches the burst. */
  lemma ReplayFinishesInOwnSlice(p: Process, g: seq<TimeSlice>)
    requires p.burstDuration > 0
    requires OwnTime(p.processId, g) >= p.burstDuration
    ensures var m := ScanLength(p, g, 0);
      0 < m && g[m - 1].pid == p.processId &&
      Replay(p, g).finishTime == g[m - 1].stop &&
      Replay(p, g).computationTime >= p.burstDuration &&
      Replay(p, g).computationTime - Duration(g[m - 1]) < p.burstDuration
  {
    var m := ScanLength(p, g, 0);
    if m == |g| {
      assert g[..m] == g;
    }
    assert Covered(p, g, m);
    if m > 1 {
      assert !Covered(p, g, m - 1);
    }
    CoveringSlice(p, g, m);
  }

  /** If the first `m` slices cover `p`'s burst and the first `m - 1` do not,
      slice `m - 1` is one of `p`'s own and is the one that reaches the burst. */
  lemma CoveringSlice(p: Process, g: seq<TimeSlice>, m: nat)
    requires p.burstDuration > 0 && 0 < m <= |g|
    requires OwnTime(p.processId, g[..m]) >= p.burstDuration
    requires m > 1 ==> OwnTime(p.processId, g[..m - 1]) < p.burstDuration
    ensures g[m - 1].pid == p.processId
    ensures OwnTime(p.processId, g[..m]) - Duration(g[m - 1]) < p.burstDuration
  {
    assert g[..m][..m - 1] == g[..m - 1];
  }

  /** A burst no longer than another of the same process is covered no
      later: the replay for it reads no more slices. */
  lemma ScanLengthMonotone(p: Process, q: Process, g: seq<TimeSlice>)
    requires p.processId == q.processId && p.burstDuration <= q.burstDuration
    ensures ScanLength(p, g, 0) <= ScanLength(q, g, 0)
  {
    var mq := ScanLength(q, g, 0);
    if mq < |g| {
      assert Covered(p, g, mq);
    }
  }

  /** When the log gives `p` exactly its burst in slices that run forward,
      the replay reports that burst as its computation time and no time of
      `p` lies after its finish. */
  lemma ReplayComputesWholeBurst(p: Process, g: seq<TimeSlice>)
    requires p.burstDuration > 0
    requires forall j :: 0 <= j < |g| ==> g[j].start <= g[j].stop
    requires OwnTime(p.processId, g) == p.burstDuration
    ensures var m := ScanLength(p, g, 0);
      0 < m && g[m - 1].pid == p.processId && Replay(p, g).finishTime == g[m - 1].stop
    ensures Replay(p, g).computationTime == p.burstDuration
    ensures OwnTime(p.processId, g[..ScanLength(p, g, 0)]) == OwnTime(p.processId, g)
  {
    ReplayFinishesInOwnSlice(p, g);
    OwnTimeMonotone(p.processId, g, ScanLength(p, g, 0));
  }

  /** When the log gives `p` less than its burst, the replay reads the whole
      log and reports finish time 0. */
  lemma ReplayUncovered(p: Process, g: seq<TimeSlice>)
    requires forall j :: 0 <= j < |g| ==> g[j].start <= g[j].stop
    requires OwnTime(p.processId, g) < p.burstDuration
    ensures ScanLength(p, g, 0) == |g|
    ensures Replay(p, g) == Replayed(OwnTime(p.processId, g), OtherTime(p.processId, g), 0)
  {
    var m := ScanLength(p, g, 0);
    OwnTimeMonotone(p.processId, g, m);
    assert g[..|g|] == g;
  }
}
