/** Preemptive shortest-job-first scheduling: SJFSchedule in Project1/main.go.
    The Go function keeps its state in local variables shared with the
    closures ganttStart, ganttStop, ganttSwap, waitingQueueAdd and
    waitingQueueRemove; here that state is the class SjfScheduler, the
    closures are its methods, and the phases of the outer loop are methods
    that Run calls in the order the Go loop runs them. */
module Sjf {
  import opened Scheduling
  import opened BurstOrder
  import opened Statistics
  import opened SjfState

  class SjfScheduler {
    /** The caller's process slice: SJFSchedule works on it in place. */
    const processes: array<Process>
    /** The records as they were passed in. */
    ghost const original: seq<Process>

    var gantt: seq<TimeSlice>
    /** Index of the process each slice of `gantt` belongs to. */
    ghost var owners: seq<int>
    var time: int
    /** Index in `gantt` of the running process's open slice. */
    var timeSlot: int
    /** Indices of the processes that have arrived and wait for the CPU. */
    var waitingQueue: seq<int>
    /** Index of the process on the CPU, or -1 when it is idle. */
    var running: int

    ghost function State(): Sim
      reads this, processes
    {
      Sim(processes[..], gantt, owners, time, timeSlot, waitingQueue, running)
    }

    /** The invariant once `arrived` processes have been enqueued. */
    ghost predicate Valid(arrived: int)
      reads this, processes
    {
      Inv(original, State(), arrived)
    }

    /** The state SJFSchedule starts from: nothing enqueued, CPU idle, time 0. */
    constructor (processes: array<Process>)
      requires WellFormed(processes[..])
      ensures this.processes == processes && original == processes[..]
      ensures gantt == [] && owners == [] && waitingQueue == []
      ensures time == 0 && timeSlot == 0 && running == -1
      ensures Valid(0)
    {
      this.processes := processes;
      original := processes[..];
      gantt := [];
      owners := [];
      time := 0;
      timeSlot := 0;
      waitingQueue := [];
      running := -1;
      new;
      InitKeepsInv(processes[..]);
    }

    /** ganttStart: open a slice for process `pid` at the current time. */
    method GanttStart(pid: int)
      requires 0 <= pid < processes.Length
      modifies this`gantt, this`owners
      ensures gantt == old(gantt) + [TimeSlice(processes[pid].processId, time, time)]
      ensures owners == old(owners) + [pid]
    {
      gantt := gantt + [TimeSlice(processes[pid].processId, time, time)];
      owners := owners + [pid];
    }

    /** ganttStop: close the open slice at the current time and move the
        slot past it. */
    method GanttStop()
      requires 0 <= timeSlot < |gantt|
      modifies this`gantt, this`timeSlot
      ensures gantt == old(gantt)[old(timeSlot) := old(gantt)[old(timeSlot)].(stop := time)]
      ensures timeSlot == old(timeSlot) + 1
    {
      gantt := gantt[timeSlot := gantt[timeSlot].(stop := time)];
      timeSlot := timeSlot + 1;
    }

    /** ganttSwap: close the open slice and open one for `pid`. */
    method GanttSwap(pid: int)
      requires 0 <= timeSlot < |gantt| && 0 <= pid < processes.Length
      modifies this`gantt, this`owners, this`timeSlot
      ensures gantt == old(gantt)[old(timeSlot) := old(gantt)[old(timeSlot)].(stop := time)]
                       + [TimeSlice(processes[pid].processId, time, time)]
      ensures owners == old(owners) + [pid]
      ensures timeSlot == old(timeSlot) + 1
    {
      GanttStop();
      GanttStart(pid);
    }

    /** waitingQueueAdd: append `pid` at the back of the queue. */
    method WaitingQueueAdd(pid: int)
      modifies this`waitingQueue
      ensures waitingQueue == old(waitingQueue) + [pid]
    {
      waitingQueue := waitingQueue + [pid];
    }

    /** waitingQueueRemove: take the head of the queue. */
    method WaitingQueueRemove() returns (pid: int)
      requires waitingQueue != []
      modifies this`waitingQueue
      ensures pid == old(waitingQueue)[0] && waitingQueue == old(waitingQueue)[1..]
    {
      pid := waitingQueue[0];
      waitingQueue := waitingQueue[1..];
    }

    /** Process `i`, the next to arrive, joins the back of the queue;
        `arrived` counts it. */
    method Arrive(i: int) returns (arrived: int)
      requires 0 <= i < processes.Length && Valid(i)
      modifies this`waitingQueue
      ensures arrived == i + 1 && waitingQueue == old(waitingQueue) + [i] && Valid(arrived)
    {
      ghost var s := State();
      EnqueueKeepsInv(original, s, i);
      waitingQueue := waitingQueue + [i];
      assert State() == Enqueued(s, i);
      arrived := i + 1;
    }

    /** The grouping loop: every process arriving with process `first`
        (which is next to arrive) joins the back of the queue, in input
        order; `next` is the first process that arrives later. */
    method EnqueueArrivals(first: int) returns (next: int)
      requires 0 <= first < processes.Length && Valid(first)
      modifies this`waitingQueue
      ensures first < next <= processes.Length && Valid(next)
      ensures waitingQueue == old(waitingQueue) + Span(first, next)
      ensures forall k :: first <= k < next ==> processes[k].arrivalTime == processes[first].arrivalTime
      ensures next < processes.Length ==> processes[next].arrivalTime != processes[first].arrivalTime
    {
      var arrivalTime := processes[first].arrivalTime;
      var i := first;
      while i < processes.Length && processes[i].arrivalTime == arrivalTime
        invariant first <= i <= processes.Length
        invariant waitingQueue == old(waitingQueue) + Span(first, i)
        invariant forall k :: first <= k < i ==> processes[k].arrivalTime == arrivalTime
        invariant Valid(i)
        decreases processes.Length - i
      {
        ghost var previous := i;
        i := Arrive(i);
        assert Span(first, i) == Span(first, previous) + [previous];
      }
      next := i;
    }

    /** The sort.Slice call: the queue becomes a permutation of itself whose
        bursts do not decrease. */
    method SortWaitingQueue(ghost arrived: int)
      requires Valid(arrived)
      modifies this`waitingQueue
      ensures Valid(arrived)
      ensures multiset(waitingQueue) == multiset(old(waitingQueue))
      ensures IndicesOf(processes[..], waitingQueue) && SortedByBurst(processes[..], waitingQueue)
    {
      ReorderKeepsInv(original, State(), arrived, SortByBurst(processes[..], waitingQueue));
      waitingQueue := SortByBurst(processes[..], waitingQueue);
    }

    /** The clock moves to `t` and the running process, if any, is charged
        with the elapsed time. */
    method Elapse(t: int, ghost arrived: int)
      requires Valid(arrived) && time <= t && -1 <= running < processes.Length
      requires running >= 0 ==> processes[running].burstDuration > t - time
      modifies this`time, processes
      ensures Valid(arrived) && State() == Elapsed(old(State()), t)
    {
      ghost var s := State();
      ElapseKeepsInv(original, s, arrived, t);
      var previousTime := time;
      var timeElapsed := t - previousTime;
      time := time + timeElapsed;
      if running >= 0 {
        processes[running] := processes[running].(burstDuration := processes[running].burstDuration - timeElapsed);
      }
      assert State() == Elapsed(s, t);
    }

    /** Preemption: the running process goes to the back of the queue, the
        queue head takes the CPU, and the slices are swapped. */
    method Preempt(ghost arrived: int)
      requires Valid(arrived) && 0 <= running && waitingQueue != []
      requires 0 < arrived <= processes.Length && original[arrived - 1].arrivalTime <= time
      modifies this`waitingQueue, this`running, this`gantt, this`owners, this`timeSlot
      ensures Valid(arrived) && State() == Dispatched(Suspended(old(State())))
    {
      ghost var s := State();
      SuspendKeepsInv(original, s, arrived);
      DispatchKeepsInv(original, Suspended(s), arrived);
      WaitingQueueAdd(running);
      running := WaitingQueueRemove();
      GanttSwap(running);
      assert State() == Dispatched(Suspended(s));
    }

    /** The idle CPU goes to the queue head, whose slice opens now. */
    method Dispatch(ghost arrived: int)
      requires Valid(arrived) && running == -1 && waitingQueue != []
      requires 0 < arrived <= processes.Length && original[arrived - 1].arrivalTime <= time
      modifies this`waitingQueue, this`running, this`gantt, this`owners
      ensures Valid(arrived) && State() == Dispatched(old(State()))
    {
      ghost var s := State();
      DispatchKeepsInv(original, s, arrived);
      running := WaitingQueueRemove();
      GanttStart(running);
      assert State() == Dispatched(s);
    }

    /** The decision at the arrival time of the group just enqueued, whose
        last process is `next - 1`: the clock moves there, the running process
        is charged with the elapsed time and preempted by the queue head if
        the head is strictly shorter; an idle CPU goes to the queue head. */
    method ElapseAndPreempt(next: int)
      requires 0 < next <= processes.Length && Valid(next)
      requires waitingQueue != [] && IndicesOf(processes[..], waitingQueue)
      requires SortedByBurst(processes[..], waitingQueue)
      requires time <= processes[next - 1].arrivalTime
      requires -1 <= running < processes.Length
      requires running >= 0 ==> processes[running].burstDuration + time > processes[next - 1].arrivalTime
      modifies this, processes
      ensures Valid(next)
      ensures State() == Arrival(old(State()), old(processes[next - 1].arrivalTime))
      ensures time == processes[next - 1].arrivalTime
      ensures 0 <= running < processes.Length && 0 <= timeSlot && timeSlot == |gantt| - 1
      ensures IndicesOf(processes[..], waitingQueue)
    {
      ghost var s := State();
      assert s.running !in s.queue && (s.running >= 0 ==> 0 <= s.timeSlot < |s.gantt|);
      var last := next - 1;
      var arrivalTime := processes[last].arrivalTime;
      ArrivalRunsShortest(s, arrivalTime);
      Elapse(arrivalTime, next);
      assert original[next - 1].arrivalTime <= time;
      if running >= 0 {
        if processes[waitingQueue[0]].burstDuration < processes[running].burstDuration {
          Preempt(next);
        }
      } else {
        Dispatch(next);
      }
      assert State() == Arrival(s, arrivalTime);
      assert original[next - 1].arrivalTime == processes[next - 1].arrivalTime;
    }

    /** One turn of the fast-forward loop: the clock moves past the running
        process's remaining burst; then the CPU falls idle and the slice is
        closed, or the queue head takes the CPU and the slices are swapped. */
    method Complete(ghost arrived: int)
      requires Valid(arrived) && 0 <= running < processes.Length && 0 <= timeSlot < |gantt|
      requires 0 < arrived <= processes.Length && original[arrived - 1].arrivalTime <= time
      modifies this`time, this`running, this`waitingQueue, this`gantt, this`owners, this`timeSlot
      ensures Valid(arrived) && State() == Completion(old(State()))
    {
      ghost var s := State();
      FinishKeepsInv(original, s, arrived);
      time := time + processes[running].burstDuration;
      if |waitingQueue| <= 0 {
        running := -1;
        GanttStop();
        assert State() == Finished(s);
      } else {
        ghost var f := Finished(s);
        DispatchKeepsInv(original, f, arrived);
        running := WaitingQueueRemove();
        GanttSwap(running);
        assert State() == Dispatched(f);
      }
    }

    /** The fast-forward loop after the decision at the arrival of process
        `next - 1`: while the arrival of process `next` would not interrupt
        the running process, it runs to completion and the queue head
        follows it. */
    method FastForward(next: int)
      requires 0 < next <= processes.Length && Valid(next)
      requires 0 <= running < processes.Length && 0 <= timeSlot && timeSlot == |gantt| - 1
      requires IndicesOf(processes[..], waitingQueue)
      requires time == processes[next - 1].arrivalTime
      modifies this`time, this`running, this`waitingQueue, this`gantt, this`owners, this`timeSlot
      ensures Valid(next) && State() == Drained(old(State()), next)
      ensures -1 <= running < processes.Length
      ensures running < 0 ==> waitingQueue == []
      ensures running >= 0 ==> next < processes.Length &&
                               processes[running].burstDuration + time > processes[next].arrivalTime
      ensures next < processes.Length ==> time <= processes[next].arrivalTime
    {
      ghost var s0 := State();
      assert original[next - 1].arrivalTime <= time;
      assert next < processes.Length ==> time <= processes[next].arrivalTime;
      DrainedStops(s0, next);
      while !(next < processes.Length && processes[running].burstDuration + time > processes[next].arrivalTime)
        invariant Valid(next) && original[next - 1].arrivalTime <= time
        invariant 0 <= running < processes.Length && 0 <= timeSlot && timeSlot == |gantt| - 1
        invariant IndicesOf(processes[..], waitingQueue)
        invariant Drained(State(), next) == Drained(s0, next)
        decreases |waitingQueue|
      {
        Complete(next);
        if running < 0 {
          break;
        }
      }
    }

    /** One turn of the outer loop of SJFSchedule, from the group of
        processes arriving with process `i`: the group is enqueued, the
        queue is sorted by burst into `order`, the decision at that arrival
        is taken, and the running process is fast-forwarded until the next
        arrival would interrupt it. `next` is the process that arrives after
        the group. The turn keeps the closed slices and never moves the
        clock back. */
    method Turn(i: int) returns (next: int, ghost order: seq<int>)
      requires 0 <= i < processes.Length && Valid(i) && -1 <= running < processes.Length
      requires running >= 0 ==> processes[running].burstDuration + time > processes[i].arrivalTime
      requires running < 0 ==> waitingQueue == []
      requires time <= processes[i].arrivalTime
      modifies this, processes
      ensures i < next <= processes.Length && Valid(next) && -1 <= running < processes.Length
      ensures multiset(order) == multiset(old(waitingQueue) + Span(i, next))
      ensures IndicesOf(old(processes[..]), order) && SortedByBurst(old(processes[..]), order)
      ensures Turned(old(State()), order, old(processes[i].arrivalTime), next, State())
      ensures Extends(old(State()), State())
      ensures running >= 0 ==> next < processes.Length &&
                               processes[running].burstDuration + time > processes[next].arrivalTime
      ensures running < 0 ==> waitingQueue == []
      ensures next < processes.Length ==> time <= processes[next].arrivalTime
    {
      ghost var s0 := State();
      next := EnqueueArrivals(i);
      SortWaitingQueue(next);
      order := waitingQueue;
      ghost var s2 := State();
      assert s2 == s0.(queue := order);
      assert processes[next - 1].arrivalTime == processes[i].arrivalTime;
      ArrivalExtends(s2, processes[i].arrivalTime);
      ElapseAndPreempt(next);
      ghost var s3 := State();
      FastForward(next);
      DrainedExtends(s3, next);
      ExtendsTrans(s2, s3, State());
    }

    /** The outer loop of SJFSchedule. When it ends every process has
        arrived, the CPU is idle, nobody waits, and the log is ordered and
        gives every process exactly its original burst. */
    method Run()
      requires Valid(0) && running == -1 && waitingQueue == [] && time == 0
      modifies this, processes
      ensures Valid(processes.Length) && running == -1 && waitingQueue == []
      ensures Remains(original, processes[..])
      ensures FinishedLog(original, gantt, owners)
    {
      var i := 0;
      assert i < processes.Length ==> time <= processes[i].arrivalTime;
      while i < processes.Length
        invariant 0 <= i <= processes.Length && Valid(i) && -1 <= running < processes.Length
        invariant running >= 0 ==> i < processes.Length &&
                                   processes[running].burstDuration + time > processes[i].arrivalTime
        invariant running < 0 ==> waitingQueue == []
        invariant i < processes.Length ==> time <= processes[i].arrivalTime
        decreases processes.Length - i
      {
        ghost var order;
        i, order := Turn(i);
      }
      CompleteLog(original, State());
    }
  }

  /** With distinct ids, a log that gives every process exactly its burst
      gives every process's id exactly that burst. */
  lemma LogGivesEachIdItsBurst(orig: seq<Process>, g: seq<TimeSlice>, o: seq<int>)
    requires UniqueIds(orig) && FinishedLog(orig, g, o)
    ensures GivesEachIdItsBurst(orig, g)
  {
    forall k | 0 <= k < |orig| ensures OwnTime(orig[k].processId, g) == orig[k].burstDuration {
      OwnTimeIsServed(orig, g, o, k);
    }
  }

  /** The simulation of SJFSchedule, on the records in `processes`, whose
      burst durations it overwrites with the remaining bursts. The log it
      returns runs forward, never runs a process before it arrives, and gives
      every process exactly its burst as passed in; `owners` names the
      process of each slice. */
  method Simulate(processes: array<Process>) returns (gantt: seq<TimeSlice>, ghost owners: seq<int>)
    requires WellFormed(processes[..])
    modifies processes
    ensures Remains(old(processes[..]), processes[..])
    ensures FinishedLog(old(processes[..]), gantt, owners)
  {
    ghost var input := processes[..];
    var scheduler := new SjfScheduler(processes);
    scheduler.Run();
    gantt, owners := scheduler.gantt, scheduler.owners;
    assert scheduler.original == input;
  }

  /** SJFSchedule as written: the simulation runs on the caller's records,
      leaving the remaining burst of each process in its BurstDuration, and
      the statistics are then computed from those mutated records. */
  method SJFSchedule(processes: array<Process>)
    returns (gantt: seq<TimeSlice>, schedule: seq<ScheduleRow>,
             totalWait: int, totalTurnaround: int, lastCompletion: int)
    requires WellFormed(processes[..])
    modifies processes
    ensures Remains(old(processes[..]), processes[..])
    ensures Ordered(gantt) && StartsAfterArrival(old(processes[..]), gantt)
    ensures UniqueIds(old(processes[..])) ==> GivesEachIdItsBurst(old(processes[..]), gantt)
    ensures |schedule| == processes.Length
    ensures UniqueIds(old(processes[..])) ==> forall k :: 0 <= k < processes.Length ==>
      schedule[k].turnaround >= schedule[k].waitingTime + processes[k].burstDuration &&
      schedule[k].exit <= Replay(old(processes[k]), gantt).finishTime
    ensures forall k :: 0 <= k < processes.Length ==>
      schedule[k] == StatsRow(processes[k], Replay(processes[k], gantt))
    ensures totalWait == TotalWait(schedule) && totalTurnaround == TotalTurnaround(schedule)
    ensures lastCompletion >= 0
    ensures forall k :: 0 <= k < processes.Length ==> schedule[k].exit <= lastCompletion
    ensures lastCompletion == 0 || exists k :: 0 <= k < processes.Length && schedule[k].exit == lastCompletion
  {
    ghost var input := processes[..];
    ghost var owners;
    gantt, owners := Simulate(processes);
    FinishedLogStartsAfterArrival(input, gantt, owners);
    schedule, totalWait, totalTurnaround, lastCompletion := CalculateStats(processes[..], gantt);
    if UniqueIds(input) {
      LogGivesEachIdItsBurst(input, gantt, owners);
      AsWrittenRows(input, processes[..], gantt, owners, schedule);
    }
  }

  // Counterexample for SJFSchedule as written. A (id 1) arrives at 0 with
  // burst 10, B (id 2) at 6 with burst 1 and C (id 3) at 8 with burst 5.
  // Each arrives alone, so every sort leaves a one-entry queue as it is and
  // each turn of the outer loop is Enqueued, Arrival, then Drained. B preempts
  // A at 6, A resumes at 7 and C runs last.

  const ExampleRecords := [Process(1, 0, 10, 0), Process(2, 6, 1, 0), Process(3, 8, 5, 0)]
  const ExampleLog := [TimeSlice(1, 0, 6), TimeSlice(2, 6, 7), TimeSlice(1, 7, 11), TimeSlice(3, 11, 16)]

  /** The state after the turn at time 0: A runs alone. */
  const ExampleAfterA := Sim(ExampleRecords, [TimeSlice(1, 0, 0)], [0], 0, 0, [], 0)
  /** The state after the turn at time 6: B has run 6-7 and A has resumed
      with 4 left. */
  const ExampleAfterB := Sim([Process(1, 0, 4, 0), Process(2, 6, 1, 0), Process(3, 8, 5, 0)],
                             [TimeSlice(1, 0, 6), TimeSlice(2, 6, 7), TimeSlice(1, 7, 7)],
                             [0, 1, 0], 7, 2, [], 0)
  /** The final state: the CPU is idle at 16 and A's record holds 3. */
  const ExampleFinal := Sim([Process(1, 0, 3, 0), Process(2, 6, 1, 0), Process(3, 8, 5, 0)],
                            ExampleLog, [0, 1, 0, 2], 16, 4, [], -1)

  lemma ExampleFirstTurn()
    ensures Drained(Arrival(Enqueued(Sim(ExampleRecords, [], [], 0, 0, [], -1), 0), 0), 1) == ExampleAfterA
  {
  }

  lemma ExampleSecondTurn()
    ensures Drained(Arrival(Enqueued(ExampleAfterA, 1), 6), 2) == ExampleAfterB
  {
    var a := Arrival(Enqueued(ExampleAfterA, 1), 6);
    assert a == Sim([Process(1, 0, 4, 0), Process(2, 6, 1, 0), Process(3, 8, 5, 0)],
                    [TimeSlice(1, 0, 6), TimeSlice(2, 6, 6)], [0, 1], 6, 1, [0], 1);
  }

  lemma ExampleThirdTurn()
    ensures Drained(Arrival(Enqueued(ExampleAfterB, 2), 8), 3) == ExampleFinal
  {
    var a := Arrival(Enqueued(ExampleAfterB, 2), 8);
    assert a == Sim(ExampleFinal.procs, ExampleAfterB.gantt, [0, 1, 0], 8, 2, [2], 0);
    var c := Completion(a);
    assert c == Sim(ExampleFinal.procs,
                    [TimeSlice(1, 0, 6), TimeSlice(2, 6, 7), TimeSlice(1, 7, 11), TimeSlice(3, 11, 11)],
                    [0, 1, 0, 2], 11, 3, [], 2);
    assert Drained(a, 3) == Drained(c, 3);
  }

  /** The statistics replay of the example log: against A's mutated record
      it reports A computing 6 and finishing at 6, where against the record
      as passed in A computes 10, waits 1 and finishes at 11. */
  lemma MutatedBurstMisreportsFinish()
    ensures ExampleFinal.procs[0] == ExampleRecords[0].(burstDuration := 3)
    ensures Replay(ExampleFinal.procs[0], ExampleLog) == Replayed(6, 0, 6)
    ensures Replay(ExampleRecords[0], ExampleLog) == Replayed(10, 1, 11)
  {
    var g := ExampleLog;
    assert g[..1] == [g[0]] && g[..2] == [g[0], g[1]] && g[..3] == [g[0], g[1], g[2]];
    assert [g[0], g[1]][..1] == [g[0]];
    assert [g[0], g[1], g[2]][..2] == [g[0], g[1]];
    assert OwnTime(1, [g[0]]) == 6 && OtherTime(1, [g[0]]) == 0;
    assert OwnTime(1, [g[0], g[1]]) == 6 && OtherTime(1, [g[0], g[1]]) == 1;
    assert OwnTime(1, [g[0], g[1], g[2]]) == 10 && OtherTime(1, [g[0], g[1], g[2]]) == 1;
    assert ScanLength(ExampleFinal.procs[0], g, 0) == 1;
    assert ScanLength(ExampleRecords[0], g, 0) == 3;
  }

  /** `t` is the stop of one of the slices that `g` gives process `pid`. */
  predicate EndsOwnSlice(g: seq<TimeSlice>, pid: int, t: int) {
    exists j :: 0 <= j < |g| && g[j].pid == pid && g[j].stop == t
  }

  /** Against a record whose burst has been lowered to a positive remaining
      burst, the replay of a forward log that gives the process exactly its
      original burst reads no more slices: the computation it reports covers
      the lowered burst, and the finish it reports is no later than the
      finish against the original record. */
  lemma MutatedRowFinishesNoLater(p: Process, q: Process, g: seq<TimeSlice>)
    requires q == p.(burstDuration := q.burstDuration) && 0 < p.burstDuration <= q.burstDuration
    requires Ordered(g) && OwnTime(p.processId, g) == q.burstDuration
    ensures Replay(p, g).computationTime >= p.burstDuration
    ensures Replay(p, g).finishTime <= Replay(q, g).finishTime
  {
    ReplayFinishesInOwnSlice(p, g);
    ReplayComputesWholeBurst(q, g);
    ScanLengthMonotone(p, q, g);
    OrderedStopsGrow(g, ScanLength(p, g, 0) - 1, ScanLength(q, g, 0) - 1);
  }

  /** The rows SJFSchedule reports, replayed against the remaining bursts
      over a finished log with distinct ids: each turnaround is at least the
      wait plus the remaining burst, and each exit is no later than the one
      the replay against the burst as passed in gives. */
  lemma AsWrittenRows(input: seq<Process>, now: seq<Process>, g: seq<TimeSlice>, o: seq<int>,
                      schedule: seq<ScheduleRow>)
    requires UniqueIds(input) && Remains(input, now) && FinishedLog(input, g, o)
    requires |schedule| == |now|
    requires forall k :: 0 <= k < |now| ==> schedule[k] == StatsRow(now[k], Replay(now[k], g))
    ensures forall k :: 0 <= k < |now| ==>
      schedule[k].turnaround >= schedule[k].waitingTime + now[k].burstDuration &&
      schedule[k].exit <= Replay(input[k], g).finishTime
  {
    LogGivesEachIdItsBurst(input, g, o);
    forall k | 0 <= k < |now|
      ensures schedule[k].turnaround >= schedule[k].waitingTime + now[k].burstDuration
      ensures schedule[k].exit <= Replay(input[k], g).finishTime
    {
      MutatedRowFinishesNoLater(now[k], input[k], g);
    }
  }

  /** What the statistics replay reports for a process that a forward log
      gives exactly its burst: the whole burst as computation time, and as
      exit the stop of a slice of its own. */
  lemma FullBurstRow(p: Process, g: seq<TimeSlice>)
    requires p.burstDuration > 0 && Ordered(g) && OwnTime(p.processId, g) == p.burstDuration
    ensures Replay(p, g).computationTime == p.burstDuration &&
      EndsOwnSlice(g, p.processId, Replay(p, g).finishTime)
  {
    ReplayComputesWholeBurst(p, g);
    var m := ScanLength(p, g, 0);
    assert g[m - 1].pid == p.processId && g[m - 1].stop == Replay(p, g).finishTime;
  }

  /** The rows the statistics replay computes from the records as passed
      in, over a log that gives every process exactly its burst: each
      turnaround is the wait plus the whole burst, and each exit is the stop
      of a slice of the process's own. */
  lemma RowsOfCompleteLog(ps: seq<Process>, g: seq<TimeSlice>, o: seq<int>, schedule: seq<ScheduleRow>)
    requires UniqueIds(ps) && ValidRecords(ps) && FinishedLog(ps, g, o)
    requires |schedule| == |ps|
    requires forall k :: 0 <= k < |ps| ==> schedule[k] == StatsRow(ps[k], Replay(ps[k], g))
    ensures forall k :: 0 <= k < |ps| ==>
      schedule[k].turnaround == schedule[k].waitingTime + ps[k].burstDuration &&
      EndsOwnSlice(g, ps[k].processId, schedule[k].exit)
  {
    LogGivesEachIdItsBurst(ps, g, o);
    forall k | 0 <= k < |ps|
      ensures schedule[k].turnaround == schedule[k].waitingTime + ps[k].burstDuration
      ensures EndsOwnSlice(g, ps[k].processId, schedule[k].exit)
    {
      FullBurstRow(ps[k], g);
    }
  }

  /** A fresh copy of the records: the working copy the simulation runs on. */
  method CopyRecords(processes: array<Process>) returns (work: array<Process>)
    ensures fresh(work) && work[..] == processes[..]
  {
    work := new Process[processes.Length](k reads processes => if 0 <= k < processes.Length then processes[k] else Process(0, 0, 0, 0));
    assert work[..] == processes[..];
  }

  /** The simulation of SJFSchedule run on a fresh copy of `processes`, which
      it leaves as they are. */
  method SimulateOnCopy(processes: array<Process>) returns (gantt: seq<TimeSlice>, ghost owners: seq<int>)
    requires WellFormed(processes[..])
    ensures FinishedLog(processes[..], gantt, owners)
  {
    var work := CopyRecords(processes);
    gantt, owners := Simulate(work);
  }

  /** SJFSchedule with the simulation run on a working copy of the records,
      so that the statistics are computed from the bursts as requested. */
  method SJFScheduleCorrected(processes: array<Process>)
    returns (gantt: seq<TimeSlice>, schedule: seq<ScheduleRow>,
             totalWait: int, totalTurnaround: int, lastCompletion: int)
    requires WellFormed(processes[..])
    ensures Ordered(gantt) && StartsAfterArrival(processes[..], gantt)
    ensures |schedule| == processes.Length
    ensures forall k :: 0 <= k < processes.Length ==>
      schedule[k] == StatsRow(processes[k], Replay(processes[k], gantt))
    ensures UniqueIds(processes[..]) ==> GivesEachIdItsBurst(processes[..], gantt)
    ensures UniqueIds(processes[..]) ==> forall k :: 0 <= k < processes.Length ==>
      schedule[k].turnaround == schedule[k].waitingTime + processes[k].burstDuration &&
      EndsOwnSlice(gantt, processes[k].processId, schedule[k].exit)
    ensures totalWait == TotalWait(schedule) && totalTurnaround == TotalTurnaround(schedule)
    ensures lastCompletion >= 0
    ensures forall k :: 0 <= k < processes.Length ==> schedule[k].exit <= lastCompletion
    ensures lastCompletion == 0 || exists k :: 0 <= k < processes.Length && schedule[k].exit == lastCompletion
  {
    ghost var input := processes[..];
    ghost var owners;
    gantt, owners := SimulateOnCopy(processes);
    FinishedLogStartsAfterArrival(input, gantt, owners);
    schedule, totalWait, totalTurnaround, lastCompletion := CalculateStats(processes[..], gantt);
    if UniqueIds(input) {
      LogGivesEachIdItsBurst(input, gantt, owners);
      RowsOfCompleteLog(input, gantt, owners, schedule);
    }
  }
}
