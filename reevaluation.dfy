/** Which process SJFSchedule runs when the running one finishes. The Go code
    sorts the waiting queue only when processes arrive; a preempted process
    goes to the back of the queue, and at a completion the head of the queue
    takes the CPU. After a preemption the queue can therefore be out of
    burst order, and the process that takes over at the next completion need
    not have the shortest remaining burst. Putting the preempted process
    back in burst order keeps the queue sorted, so every completion hands
    the CPU to a shortest waiting job. */
module Reevaluation {
  import opened Scheduling
  import opened BurstOrder
  import opened SjfState

  /** The waiting queue names processes and is in burst order. */
  predicate QueueInOrder(s: Sim) {
    IndicesOf(s.procs, s.queue) && SortedByBurst(s.procs, s.queue)
  }

  /** Preemption with the running process put back in burst order instead
      of at the back of the queue. */
  function SuspendedInOrder(s: Sim): Sim
    requires 0 <= s.running < |s.procs| && 0 <= s.timeSlot < |s.gantt| && QueueInOrder(s)
  {
    Closed(s).(queue := Insert(s.procs, s.running, s.queue), running := -1)
  }

  /** The corrected preemption closes the same slice as the original one,
      waits the same processes, and leaves the queue in burst order. */
  lemma SuspendedInOrderKeepsOrder(s: Sim)
    requires 0 <= s.running < |s.procs| && 0 <= s.timeSlot < |s.gantt| && QueueInOrder(s)
    ensures var u := SuspendedInOrder(s);
      QueueInOrder(u) && u == Suspended(s).(queue := u.queue) &&
      multiset(u.queue) == multiset(Suspended(s).queue)
  {
  }

  /** With the queue in burst order, a completion hands the CPU to a process
      whose remaining burst is no longer than that of any process still
      waiting, and the queue stays in burst order. */
  lemma CompletionRunsShortest(s: Sim)
    requires 0 <= s.running < |s.procs| && 0 <= s.timeSlot < |s.gantt| && QueueInOrder(s)
    ensures var c := Completion(s);
      QueueInOrder(c) &&
      (c.running >= 0 ==> forall j :: 0 <= j < |c.queue| ==>
         c.procs[c.running].burstDuration <= c.procs[c.queue[j]].burstDuration)
  {
    var c := Completion(s);
    if s.queue != [] {
      assert c.queue == s.queue[1..] && c.running == s.queue[0];
      forall j | 0 <= j < |c.queue|
        ensures c.procs[c.running].burstDuration <= c.procs[c.queue[j]].burstDuration
      {
        assert c.queue[j] == s.queue[j + 1];
      }
    }
  }

  /** A preemption in burst order followed by the dispatch of the queue
      head, as at an arrival, leaves the queue in burst order, so the next
      completion again runs a shortest waiting job. */
  lemma PreemptInOrderKeepsOrder(s: Sim)
    requires 0 <= s.running < |s.procs| && 0 <= s.timeSlot < |s.gantt| && QueueInOrder(s)
    ensures QueueInOrder(Dispatched(SuspendedInOrder(s)))
  {
    var u := SuspendedInOrder(s);
    var d := Dispatched(u);
    forall i, j | 0 <= i < j < |d.queue|
      ensures d.procs[d.queue[i]].burstDuration <= d.procs[d.queue[j]].burstDuration
    {
      assert d.queue[i] == u.queue[i + 1] && d.queue[j] == u.queue[j + 1];
    }
  }

  /** Charging the running process with elapsed time leaves the bursts of
      the waiting processes, and so the order of the queue, alone. */
  lemma ElapsedKeepsOrder(s: Sim, t: int)
    requires -1 <= s.running < |s.procs| && s.running !in s.queue && QueueInOrder(s)
    ensures QueueInOrder(Elapsed(s, t))
  {
    var e := Elapsed(s, t);
    forall j | 0 <= j < |s.queue| ensures e.procs[s.queue[j]] == s.procs[s.queue[j]] {
      assert s.queue[j] in s.queue;
    }
    forall i, j | 0 <= i < j < |e.queue|
      ensures e.procs[e.queue[i]].burstDuration <= e.procs[e.queue[j]].burstDuration
    {
      assert s.procs[s.queue[i]].burstDuration <= s.procs[s.queue[j]].burstDuration;
    }
  }

  /** Giving the idle CPU to the head of a queue in burst order leaves the
      rest of the queue in burst order. */
  lemma DispatchedKeepsOrder(s: Sim)
    requires s.queue != [] && QueueInOrder(s)
    ensures QueueInOrder(Dispatched(s))
  {
    var d := Dispatched(s);
    forall i, j | 0 <= i < j < |d.queue|
      ensures d.procs[d.queue[i]].burstDuration <= d.procs[d.queue[j]].burstDuration
    {
      assert d.queue[i] == s.queue[i + 1] && d.queue[j] == s.queue[j + 1];
    }
  }

  /** With the corrected preemption, the decision at an arrival keeps a
      queue in burst order: after it, as after every completion
      (CompletionRunsShortest), the queue is in burst order. */
  lemma ArrivalInOrderKeepsOrder(s: Sim, t: int)
    requires -1 <= s.running < |s.procs| && s.running !in s.queue && QueueInOrder(s)
    requires s.queue != [] && (s.running >= 0 ==> 0 <= s.timeSlot < |s.gantt|)
    ensures var e := Elapsed(s, t);
      QueueInOrder(e) &&
      (e.running < 0 ==> QueueInOrder(Dispatched(e))) &&
      (e.running >= 0 ==> QueueInOrder(Dispatched(SuspendedInOrder(e))))
  {
    ElapsedKeepsOrder(s, t);
    var e := Elapsed(s, t);
    if e.running < 0 {
      DispatchedKeepsOrder(e);
    } else {
      PreemptInOrderKeepsOrder(e);
    }
  }

  /** A process is running, and its remaining burst is no longer than that
      of any waiting process. */
  predicate RunsShortest(s: Sim) {
    0 <= s.running < |s.procs| && IndicesOf(s.procs, s.queue) &&
    forall j :: 0 <= j < |s.queue| ==>
      s.procs[s.running].burstDuration <= s.procs[s.queue[j]].burstDuration
  }

  /** The decision at an arrival time `t` with the corrected preemption: a
      preempted process goes back into the queue in burst order. */
  function ArrivalInOrder(s: Sim, t: int): Sim
    requires -1 <= s.running < |s.procs| && s.running !in s.queue && QueueInOrder(s)
    requires s.queue != [] && (s.running >= 0 ==> 0 <= s.timeSlot < |s.gantt|)
  {
    ElapsedKeepsOrder(s, t);
    var e := Elapsed(s, t);
    if e.running < 0 then Dispatched(e)
    else if e.procs[e.queue[0]].burstDuration < e.procs[e.running].burstDuration then
      SuspendedInOrderKeepsOrder(e);
      Dispatched(SuspendedInOrder(e))
    else e
  }

  /** After the corrected decision at an arrival, a process runs whose
      remaining burst is no longer than any waiting process's, and the
      queue is in burst order. */
  lemma ArrivalInOrderRunsShortest(s: Sim, t: int)
    requires -1 <= s.running < |s.procs| && s.running !in s.queue && QueueInOrder(s)
    requires s.queue != [] && (s.running >= 0 ==> 0 <= s.timeSlot < |s.gantt|)
    ensures var r := ArrivalInOrder(s, t); QueueInOrder(r) && RunsShortest(r)
  {
    ArrivalInOrderKeepsOrder(s, t);
    var e := Elapsed(s, t);
    var r := ArrivalInOrder(s, t);
    if e.running < 0 || e.procs[e.queue[0]].burstDuration < e.procs[e.running].burstDuration {
      var u := if e.running < 0 then e else SuspendedInOrder(e);
      if e.running >= 0 {
        SuspendedInOrderKeepsOrder(e);
      }
      assert r == Dispatched(u) && u.queue != [];
      forall j | 0 <= j < |r.queue|
        ensures r.procs[r.running].burstDuration <= r.procs[r.queue[j]].burstDuration
      {
        assert r.queue[j] == u.queue[j + 1];
      }
    } else {
      forall j | 0 <= j < |r.queue|
        ensures r.procs[r.running].burstDuration <= r.procs[r.queue[j]].burstDuration
      {
        if j > 0 {
          assert e.procs[e.queue[0]].burstDuration <= e.procs[e.queue[j]].burstDuration;
        }
      }
    }
  }

  /** The fast-forward loop keeps what the corrected arrival establishes:
      from a queue in burst order with a shortest job running, every
      completion it goes through hands the CPU to a shortest waiting job
      (CompletionRunsShortest), so it ends with the queue in burst order and,
      unless the CPU fell idle, a shortest job running. */
  lemma {:induction false} DrainedRunsShortest(s: Sim, next: int)
    requires 0 <= s.running < |s.procs| && 0 <= s.timeSlot && s.timeSlot == |s.gantt| - 1
    requires 0 <= next && QueueInOrder(s) && RunsShortest(s)
    ensures var d := Drained(s, next); QueueInOrder(d) && (d.running >= 0 ==> RunsShortest(d))
    decreases |s.queue|
  {
    if !(next < |s.procs| && s.procs[s.running].burstDuration + s.time > s.procs[next].arrivalTime) {
      var c := Completion(s);
      CompletionRunsShortest(s);
      if c.running >= 0 {
        DrainedRunsShortest(c, next);
      }
    }
  }

  // Counterexample for SJFSchedule as written. A (id 1) arrives at 0 with
  // burst 10; B (id 2, burst 3) and C (id 3, burst 9) arrive together at 2.
  // The queue is sorted to [B, C]; A, with 8 left, is preempted by B and
  // goes to the back: [C, A]. When B finishes at 5, C takes the CPU with 9
  // left although A has only 8 left.

  const LateRecords := [Process(1, 0, 10, 0), Process(2, 2, 3, 0), Process(3, 2, 9, 0)]

  /** The state after the turn at time 0: A runs alone. */
  const LateAfterA := Sim(LateRecords, [TimeSlice(1, 0, 0)], [0], 0, 0, [], 0)

  /** A's burst as charged at time 2. */
  const LateCharged := [Process(1, 0, 8, 0), Process(2, 2, 3, 0), Process(3, 2, 9, 0)]

  /** The state at time 2, A charged, before the decision: B and C wait in
      burst order. */
  const LateElapsed := Sim(LateCharged, [TimeSlice(1, 0, 0)], [0], 2, 0, [1, 2], 0)

  /** The state after the decision at time 2: B runs, C and A wait in that order. */
  const LatePreempted := Sim(LateCharged, [TimeSlice(1, 0, 2), TimeSlice(2, 2, 2)], [0, 1], 2, 1, [2, 0], 1)

  lemma LateFirstTurn()
    ensures Drained(Arrival(Enqueued(Sim(LateRecords, [], [], 0, 0, [], -1), 0), 0), 1) == LateAfterA
  {
  }

  /** At time 2 B and C join the queue and sorting leaves it [B, C]. */
  lemma LateSort()
    ensures Enqueued(Enqueued(LateAfterA, 1), 2).queue == [1, 2]
    ensures SortByBurst(LateRecords, [1, 2]) == [1, 2]
  {
    SortOne();
    assert [1, 2][1..] == [2];
    assert Insert(LateRecords, 1, [2]) == [1, 2];
  }

  lemma SortOne()
    ensures SortByBurst(LateRecords, [2]) == [2]
  {
    assert [2][1..] == [];
  }

  /** The clock moves to 2 and A is charged with 2. */
  lemma LateElapse()
    ensures Elapsed(Enqueued(Enqueued(LateAfterA, 1), 2), 2) == LateElapsed
  {
    var q := Enqueued(Enqueued(LateAfterA, 1), 2);
    assert q == Sim(LateRecords, [TimeSlice(1, 0, 0)], [0], 0, 0, [1, 2], 0);
  }

  /** B, with 3, preempts A, with 8 left, and A goes to the back. */
  lemma LateSecondArrival()
    ensures Arrival(Enqueued(Enqueued(LateAfterA, 1), 2), 2) == LatePreempted
  {
    LateElapse();
    var u := Sim(LateCharged, [TimeSlice(1, 0, 2)], [0], 2, 1, [1, 2, 0], -1);
    assert Suspended(LateElapsed) == u;
    assert u.queue[1..] == [2, 0];
    assert Dispatched(u) == LatePreempted;
  }

  /** At B's completion the head C, with 9 left, takes the CPU while A waits
      with 8 left. */
  lemma CompletionSkipsShortest()
    ensures !QueueInOrder(LatePreempted)
    ensures Completion(LatePreempted).running == 2 && Completion(LatePreempted).queue == [0]
    ensures LateCharged[0].burstDuration < LateCharged[2].burstDuration
  {
    assert LatePreempted.queue[0] == 2 && LatePreempted.queue[1] == 0;
  }

  /** A, with 8 left, goes in front of C, with 9. */
  lemma InsertBeforeC()
    ensures Insert(LateCharged, 0, [2]) == [0, 2]
  {
  }

  /** A, with 8 left, goes behind B, with 3, and in front of C. */
  lemma InsertBehindB()
    ensures Insert(LateCharged, 0, [1, 2]) == [1, 0, 2]
  {
    assert [1, 2][1..] == [2];
    InsertBeforeC();
  }

  /** The corrected preemption at time 2 puts A between B and C. */
  lemma CorrectedPreemptOrder()
    ensures QueueInOrder(LateElapsed)
    ensures SuspendedInOrder(LateElapsed).queue == [1, 0, 2]
  {
    InsertBehindB();
  }

  /** With the corrected preemption B runs and A heads the queue, so at B's
      completion A takes the CPU. */
  lemma CorrectedPreemptRunsShortest()
    ensures Dispatched(SuspendedInOrder(LateElapsed)).queue == [0, 2]
    ensures Completion(Dispatched(SuspendedInOrder(LateElapsed))).running == 0
  {
    CorrectedPreemptOrder();
    var u := SuspendedInOrder(LateElapsed);
    assert u.queue[0] == 1 && u.queue[1..] == [0, 2];
  }
}
