/** The state of SJFSchedule in Project1/main.go as a value, its invariant,
    and the transitions the Go code makes on it, each with a lemma saying it
    keeps the invariant. The class in module Sjf performs these transitions
    in place. */
module SjfState {
  import opened Scheduling
  import opened BurstOrder

  /** Time the log gives the process with index `k`, attributing slice `j`
      to the process with index `owners[j]`. */
  function Served(g: seq<TimeSlice>, owners: seq<int>, k: int): int
    requires |g| == |owners|
  {
    if g == [] then 0
    else Served(g[..|g| - 1], owners[..|owners| - 1], k)
         + (if owners[|owners| - 1] == k then Duration(g[|g| - 1]) else 0)
  }

  /** `g` is a finished log for the records `ps`, `o` naming the process of
      each slice: it runs forward, runs no process before it arrives, and
      gives every process exactly its burst. */
  predicate FinishedLog(ps: seq<Process>, g: seq<TimeSlice>, o: seq<int>) {
    Ordered(g) && |o| == |g| &&
    (forall j :: 0 <= j < |g| ==>
       0 <= o[j] < |ps| && g[j].pid == ps[o[j]].processId && ps[o[j]].arrivalTime <= g[j].start) &&
    (forall k :: 0 <= k < |ps| ==> Served(g, o, k) == ps[k].burstDuration)
  }

  /** Some record with the id of slice `t` had arrived by the time `t` starts. */
  predicate ArrivedBy(ps: seq<Process>, t: TimeSlice) {
    exists k :: 0 <= k < |ps| && t.pid == ps[k].processId && ps[k].arrivalTime <= t.start
  }

  /** No slice of `g` starts before the arrival of a record with its id. */
  predicate StartsAfterArrival(ps: seq<Process>, g: seq<TimeSlice>) {
    forall j :: 0 <= j < |g| ==> ArrivedBy(ps, g[j])
  }

  /** A finished log starts every slice after its owner's arrival. */
  lemma FinishedLogStartsAfterArrival(ps: seq<Process>, g: seq<TimeSlice>, o: seq<int>)
    requires FinishedLog(ps, g, o)
    ensures StartsAfterArrival(ps, g)
  {
    forall j | 0 <= j < |g|
      ensures ArrivedBy(ps, g[j])
    {
      var k := o[j];
      assert g[j].pid == ps[k].processId && ps[k].arrivalTime <= g[j].start;
    }
  }

  /** `now` holds the records `orig` with only their bursts changed, each
      to a remaining burst that is positive and no larger than the original. */
  predicate Remains(orig: seq<Process>, now: seq<Process>) {
    |now| == |orig| &&
    forall k :: 0 <= k < |orig| ==>
      now[k] == orig[k].(burstDuration := now[k].burstDuration) &&
      0 < now[k].burstDuration <= orig[k].burstDuration
  }

  /** The indices lo, lo + 1, ..., hi - 1. */
  function Span(lo: int, hi: int): (r: seq<int>)
    requires lo <= hi
    ensures |r| == hi - lo
    ensures forall k :: 0 <= k < |r| ==> r[k] == lo + k
    decreases hi - lo
  {
    if hi == lo then [] else Span(lo, hi - 1) + [hi - 1]
  }

  /** Closing the open slice `ts` as `s` adds its duration to its owner. */
  lemma ServedClose(g: seq<TimeSlice>, o: seq<int>, ts: int, s: TimeSlice, k: int)
    requires |g| == |o| && 0 <= ts < |g|
    ensures Served(g[ts := s][..ts + 1], o[..ts + 1], k)
         == Served(g[..ts], o[..ts], k) + (if o[ts] == k then Duration(s) else 0)
  {
    assert g[ts := s][..ts + 1][..ts] == g[..ts];
    assert o[..ts + 1][..ts] == o[..ts];
  }

  /** A snapshot of SJFSchedule's state: the (mutated) process records, the
      Gantt log with the index of each slice's owner, the clock, the index of
      the open slice, the waiting queue of indices and the running index
      (-1 when the CPU is idle). */
  datatype Sim = Sim(procs: seq<Process>, gantt: seq<TimeSlice>, owners: seq<int>,
                     time: int, timeSlot: int, queue: seq<int>, running: int)

  /** The indices and counters agree once `arrived` processes have been
      enqueued: each index waits at most once and never while it runs, and
      the open slice (if any) is the last one and belongs to `running`. */
  ghost predicate Shape(orig: seq<Process>, s: Sim, arrived: int) {
    |s.procs| == |orig| &&
    0 <= arrived <= |orig| &&
    |s.owners| == |s.gantt| &&
    -1 <= s.running < arrived &&
    s.timeSlot == |s.gantt| - (if s.running >= 0 then 1 else 0) && 0 <= s.timeSlot &&
    (s.running >= 0 ==> s.owners[s.timeSlot] == s.running) &&
    (forall j :: 0 <= j < |s.owners| ==> 0 <= s.owners[j] < arrived) &&
    (forall j :: 0 <= j < |s.queue| ==> 0 <= s.queue[j] < arrived) &&
    (forall k :: multiset(s.queue)[k] <= 1) &&
    s.running !in s.queue
  }

  /** The log so far: each slice names its owner, starts no earlier than the
      owner arrived, runs forward, ends no later than the next one starts and
      no later than now; the open slice has stop == start. */
  predicate Timeline(orig: seq<Process>, s: Sim)
    requires |s.owners| == |s.gantt|
    requires forall j :: 0 <= j < |s.owners| ==> 0 <= s.owners[j] < |orig|
  {
    (forall j :: 0 <= j < |s.gantt| ==>
       s.gantt[j].pid == orig[s.owners[j]].processId &&
       orig[s.owners[j]].arrivalTime <= s.gantt[j].start <= s.gantt[j].stop <= s.time) &&
    (forall j :: 0 < j < |s.gantt| ==> s.gantt[j - 1].stop <= s.gantt[j].start) &&
    (0 <= s.timeSlot < |s.gantt| ==> s.gantt[s.timeSlot].stop == s.gantt[s.timeSlot].start)
  }

  /** Only burst durations differ from the records passed in, and no
      burst has grown. */
  predicate SameRecords(orig: seq<Process>, s: Sim)
    requires |s.procs| == |orig|
  {
    forall k :: 0 <= k < |orig| ==>
      s.procs[k].processId == orig[k].processId &&
      s.procs[k].arrivalTime == orig[k].arrivalTime &&
      s.procs[k].priority == orig[k].priority &&
      s.procs[k].burstDuration <= orig[k].burstDuration
  }

  /** Every process has burst left, in particular every process that runs
      or waits. */
  predicate Pending(s: Sim) {
    (forall k :: 0 <= k < |s.procs| ==> s.procs[k].burstDuration > 0) &&
    (forall j :: 0 <= j < |s.queue| && 0 <= s.queue[j] < |s.procs| ==>
       s.procs[s.queue[j]].burstDuration > 0) &&
    (0 <= s.running < |s.procs| ==> s.procs[s.running].burstDuration > 0)
  }

  /** Conservation for process `k`: the time the closed slices gave it, plus
      the time it has run in the open slice, plus its remaining burst, is its
      original burst; a process that has arrived and neither runs nor waits
      has been given exactly its burst. */
  ghost predicate Balanced(orig: seq<Process>, s: Sim, arrived: int, k: int)
    requires Shape(orig, s, arrived) && 0 <= k < |orig|
  {
    var served := Served(s.gantt[..s.timeSlot], s.owners[..s.timeSlot], k);
    if k >= arrived then
      served == 0 && s.procs[k].burstDuration == orig[k].burstDuration
    else if k == s.running then
      served + (s.time - s.gantt[s.timeSlot].start) + s.procs[k].burstDuration
        == orig[k].burstDuration
    else if k in s.queue then
      served + s.procs[k].burstDuration == orig[k].burstDuration
    else
      served == orig[k].burstDuration
  }

  /** The invariant of the simulation once `arrived` processes have been
      enqueued. */
  ghost predicate Inv(orig: seq<Process>, s: Sim, arrived: int) {
    Shape(orig, s, arrived) && WellFormed(orig) && Timeline(orig, s) &&
    SameRecords(orig, s) && Pending(s) &&
    forall k {:trigger Balanced(orig, s, arrived, k)} :: 0 <= k < |orig| ==> Balanced(orig, s, arrived, k)
  }

  // Transitions of the simulation, each one an update the Go code makes.

  /** The queue after process `a` is appended to it. */
  function Enqueued(s: Sim, a: int): Sim {
    s.(queue := s.queue + [a])
  }

  /** The clock moved to `t`; the running process's remaining burst is
      charged with the elapsed time. */
  function Elapsed(s: Sim, t: int): Sim
    requires s.running < |s.procs|
  {
    if s.running >= 0 then
      var p := s.procs[s.running];
      s.(time := t, procs := s.procs[s.running := p.(burstDuration := p.burstDuration - (t - s.time))])
    else s.(time := t)
  }

  /** ganttStop: the open slice is closed now and the slot moves past it. */
  function Closed(s: Sim): Sim
    requires 0 <= s.timeSlot < |s.gantt|
  {
    s.(gantt := s.gantt[s.timeSlot := s.gantt[s.timeSlot].(stop := s.time)],
       timeSlot := s.timeSlot + 1)
  }

  /** Preemption: the running process's slice is closed and it goes to the
      back of the queue. */
  function Suspended(s: Sim): Sim
    requires 0 <= s.timeSlot < |s.gantt|
  {
    Closed(s).(queue := s.queue + [s.running], running := -1)
  }

  /** Fast-forward: the clock moves past the running process's remaining
      burst and its slice is closed then. */
  function Finished(s: Sim): Sim
    requires 0 <= s.running < |s.procs| && 0 <= s.timeSlot < |s.gantt|
  {
    Closed(s.(time := s.time + s.procs[s.running].burstDuration)).(running := -1)
  }

  /** The head of the queue is taken off it and a slice is opened for it now. */
  function Dispatched(s: Sim): Sim
    requires s.queue != [] && 0 <= s.queue[0] < |s.procs|
  {
    var h := s.queue[0];
    s.(running := h, queue := s.queue[1..],
       gantt := s.gantt + [TimeSlice(s.procs[h].processId, s.time, s.time)],
       owners := s.owners + [h])
  }

  /** The decision at an arrival time `t`: the clock moves to `t`, then the
      head of the (sorted) queue preempts the running process if it is
      strictly shorter, or takes the CPU if it is idle. */
  function Arrival(s: Sim, t: int): Sim
    requires -1 <= s.running < |s.procs| && s.queue != [] && 0 <= s.queue[0] < |s.procs|
    requires s.running >= 0 ==> 0 <= s.timeSlot < |s.gantt|
  {
    var e := Elapsed(s, t);
    if e.running < 0 then Dispatched(e)
    else if e.procs[e.queue[0]].burstDuration < e.procs[e.running].burstDuration then
      Dispatched(Suspended(e))
    else e
  }

  /** One turn of the fast-forward loop: the running process runs out its
      remaining burst; the head of the queue, if any, takes the CPU. */
  function Completion(s: Sim): Sim
    requires 0 <= s.running < |s.procs| && 0 <= s.timeSlot < |s.gantt|
    requires s.queue != [] ==> 0 <= s.queue[0] < |s.procs|
  {
    var f := Finished(s);
    if f.queue == [] then f else Dispatched(f)
  }

  /** Shortest remaining burst first at an arrival: after the decision the
      CPU is busy, the process on it has a remaining burst no longer than
      any waiting process's, and a running process keeps the CPU exactly
      when the queue head is not strictly shorter than its remaining burst. */
  lemma ArrivalRunsShortest(s: Sim, t: int)
    requires -1 <= s.running < |s.procs| && s.running !in s.queue
    requires s.queue != [] && IndicesOf(s.procs, s.queue) && SortedByBurst(s.procs, s.queue)
    requires s.running >= 0 ==> 0 <= s.timeSlot < |s.gantt|
    ensures var r := Arrival(s, t);
      r.time == t && 0 <= r.running < |r.procs| && IndicesOf(r.procs, r.queue) &&
      (forall j :: 0 <= j < |r.queue| ==>
         r.procs[r.running].burstDuration <= r.procs[r.queue[j]].burstDuration)
    ensures s.running >= 0 ==>
      (Arrival(s, t).running == s.running <==>
       Elapsed(s, t).procs[s.running].burstDuration <= s.procs[s.queue[0]].burstDuration)
  {
    var e := Elapsed(s, t);
    var r := Arrival(s, t);
    var q := s.queue;
    forall j | 0 <= j < |q| ensures e.procs[q[j]] == s.procs[q[j]] {
      assert q[j] in q;
    }
    forall j | 0 <= j < |r.queue|
      ensures r.procs[r.running].burstDuration <= r.procs[r.queue[j]].burstDuration
    {
      if e.running >= 0 && e.procs[q[0]].burstDuration < e.procs[e.running].burstDuration {
        if j < |q| - 1 {
          assert r.queue[j] == q[j + 1];
        } else {
          assert r.queue[j] == s.running;
        }
      } else if e.running < 0 {
        assert r.queue[j] == q[j + 1];
      } else {
        assert r.queue == q;
        if j > 0 {
          assert s.procs[q[0]].burstDuration <= s.procs[q[j]].burstDuration;
        }
      }
    }
  }

  /** The fast-forward loop run from `s` while process `next` is the next
      to arrive: it stops as soon as the running process would still have
      burst left when `next` arrives, or when the CPU falls idle. */
  function Drained(s: Sim, next: int): Sim
    requires 0 <= s.running < |s.procs| && 0 <= s.timeSlot && s.timeSlot == |s.gantt| - 1
    requires IndicesOf(s.procs, s.queue) && 0 <= next
    decreases |s.queue|
  {
    if next < |s.procs| && s.procs[s.running].burstDuration + s.time > s.procs[next].arrivalTime then s
    else
      var c := Completion(s);
      if c.running < 0 then c else Drained(c, next)
  }

  /** The fast-forward loop leaves the bursts alone and ends either with
      the CPU idle and nobody waiting, or with a running process that will
      still have burst left when process `next` arrives; it never moves the
      clock past that arrival. */
  lemma {:induction false} DrainedStops(s: Sim, next: int)
    requires 0 <= s.running < |s.procs| && 0 <= s.timeSlot && s.timeSlot == |s.gantt| - 1
    requires IndicesOf(s.procs, s.queue) && 0 <= next
    ensures var r := Drained(s, next);
      r.procs == s.procs &&
      (r.running < 0 ==> r.running == -1 && r.queue == []) &&
      (r.running >= 0 ==> r.running < |r.procs| && next < |r.procs| &&
                          r.procs[r.running].burstDuration + r.time > r.procs[next].arrivalTime) &&
      (next < |s.procs| && s.time <= s.procs[next].arrivalTime ==> r.time <= s.procs[next].arrivalTime)
    decreases |s.queue|
  {
    if !(next < |s.procs| && s.procs[s.running].burstDuration + s.time > s.procs[next].arrivalTime) {
      var c := Completion(s);
      if c.running >= 0 {
        DrainedStops(c, next);
      }
    }
  }

  /** One turn of the outer loop from `s`: the queue, reordered as `q`, goes
      through the decision at arrival time `t` and then through the
      fast-forward loop while process `next` is the next to arrive, ending
      in `r`. */
  predicate Turned(s: Sim, q: seq<int>, t: int, next: int, r: Sim) {
    q != [] && IndicesOf(s.procs, q) && -1 <= s.running < |s.procs| &&
    (s.running >= 0 ==> 0 <= s.timeSlot < |s.gantt|) && 0 <= next &&
    var a := Arrival(s.(queue := q), t);
    0 <= a.running < |a.procs| && 0 <= a.timeSlot && a.timeSlot == |a.gantt| - 1 &&
    IndicesOf(a.procs, a.queue) &&
    r == Drained(a, next)
  }

  /** `r` continues `s`: the clock has not gone back, the open slot has not
      moved back, and the slices closed in `s` are kept in `r` unchanged. */
  predicate Extends(s: Sim, r: Sim) {
    s.time <= r.time && 0 <= s.timeSlot <= r.timeSlot &&
    s.timeSlot <= |s.gantt| && s.timeSlot <= |r.gantt| &&
    r.gantt[..s.timeSlot] == s.gantt[..s.timeSlot]
  }

  lemma ExtendsTrans(s: Sim, u: Sim, r: Sim)
    requires Extends(s, u) && Extends(u, r)
    ensures Extends(s, r)
  {
    assert r.gantt[..s.timeSlot] == r.gantt[..u.timeSlot][..s.timeSlot];
    assert u.gantt[..s.timeSlot] == u.gantt[..u.timeSlot][..s.timeSlot];
  }

  /** The decision at an arrival no earlier than now keeps the closed slices
      and does not move the clock back. */
  lemma ArrivalExtends(s: Sim, t: int)
    requires -1 <= s.running < |s.procs| && s.queue != [] && 0 <= s.queue[0] < |s.procs|
    requires s.running >= 0 ==> 0 <= s.timeSlot < |s.gantt|
    requires 0 <= s.timeSlot <= |s.gantt| && s.time <= t
    ensures Extends(s, Arrival(s, t))
  {
    var e := Elapsed(s, t);
    if e.running >= 0 {
      assert Closed(e).gantt[..s.timeSlot] == s.gantt[..s.timeSlot];
    }
  }

  /** A completion keeps the closed slices, and the clock moves forward by
      the remaining burst of the process that completes. */
  lemma CompletionExtends(s: Sim)
    requires 0 <= s.running < |s.procs| && 0 <= s.timeSlot < |s.gantt|
    requires s.queue != [] ==> 0 <= s.queue[0] < |s.procs|
    requires s.procs[s.running].burstDuration >= 0
    ensures Extends(s, Completion(s))
  {
    assert Finished(s).gantt[..s.timeSlot] == s.gantt[..s.timeSlot];
  }

  /** The fast-forward loop, run while every running or waiting process
      has burst left, keeps the closed slices and never moves the clock back. */
  lemma {:induction false} DrainedExtends(s: Sim, next: int)
    requires 0 <= s.running < |s.procs| && 0 <= s.timeSlot && s.timeSlot == |s.gantt| - 1
    requires IndicesOf(s.procs, s.queue) && 0 <= next && Pending(s)
    ensures Extends(s, Drained(s, next))
    decreases |s.queue|
  {
    if !(next < |s.procs| && s.procs[s.running].burstDuration + s.time > s.procs[next].arrivalTime) {
      var c := Completion(s);
      CompletionExtends(s);
      if c.running >= 0 {
        forall j | 0 <= j < |c.queue| && 0 <= c.queue[j] < |c.procs|
          ensures c.procs[c.queue[j]].burstDuration > 0
        {
          assert c.queue[j] == s.queue[j + 1];
        }
        DrainedExtends(c, next);
        ExtendsTrans(s, c, Drained(c, next));
      }
    }
  }

  /** The state SJFSchedule starts from keeps the invariant. */
  lemma InitKeepsInv(orig: seq<Process>)
    requires WellFormed(orig)
    ensures Inv(orig, Sim(orig, [], [], 0, 0, [], -1), 0)
  {
    var s := Sim(orig, [], [], 0, 0, [], -1);
    forall k | 0 <= k < |orig| ensures Balanced(orig, s, 0, k) {
      assert s.gantt[..0] == [];
    }
  }

  /** Enqueuing the next process to arrive keeps the invariant. */
  lemma EnqueueKeepsInv(orig: seq<Process>, s: Sim, a: int)
    requires a < |orig|
    ensures Inv(orig, s, a) ==> Inv(orig, Enqueued(s, a), a + 1)
  {
    if !Inv(orig, s, a) { return; }
    assert a !in s.queue;
    assert Balanced(orig, s, a, a);
    var b := a + 1;
    assert Shape(orig, Enqueued(s, a), b);
    EnqueueKeepsBalance(orig, s, a, b);
  }

  lemma EnqueueKeepsBalance(orig: seq<Process>, s: Sim, a: int, b: int)
    requires a < |orig| && b == a + 1
    ensures Inv(orig, s, a) && Shape(orig, Enqueued(s, a), b) ==>
      forall k :: 0 <= k < |orig| ==> Balanced(orig, Enqueued(s, a), b, k)
  {
    if !Inv(orig, s, a) || !Shape(orig, Enqueued(s, a), b) { return; }
    var t := Enqueued(s, a);
    assert Balanced(orig, s, a, a);
    forall k | 0 <= k < |orig| ensures Balanced(orig, t, b, k) {
      assert Balanced(orig, s, a, k);
      assert k in t.queue <==> k in s.queue || k == a;
    }
  }

  /** Reordering the queue keeps the invariant. */
  lemma ReorderKeepsInv(orig: seq<Process>, s: Sim, a: int, q: seq<int>)
    requires multiset(q) == multiset(s.queue)
    ensures Inv(orig, s, a) ==> Inv(orig, s.(queue := q), a)
  {
    if !Inv(orig, s, a) { return; }
    var t := s.(queue := q);
    forall j | 0 <= j < |q| ensures 0 <= q[j] < a && s.procs[q[j]].burstDuration > 0 {
      assert q[j] in multiset(s.queue);
      var i :| 0 <= i < |s.queue| && s.queue[i] == q[j];
    }
    assert s.running !in multiset(q);
    forall k | 0 <= k < |orig| ensures Balanced(orig, t, a, k) {
      assert Balanced(orig, s, a, k);
      assert k in q <==> k in multiset(s.queue);
    }
  }

  /** Moving the clock forward to `t`, by less than the running process's
      remaining burst, keeps the invariant. */
  lemma ElapseKeepsInv(orig: seq<Process>, s: Sim, a: int, t: int)
    requires s.time <= t && s.running < |s.procs|
    requires s.running >= 0 ==> s.procs[s.running].burstDuration > t - s.time
    ensures Inv(orig, s, a) ==> Inv(orig, Elapsed(s, t), a)
  {
    if !Inv(orig, s, a) { return; }
    var u := Elapsed(s, t);
    forall k | 0 <= k < |orig| ensures Balanced(orig, u, a, k) {
      assert Balanced(orig, s, a, k);
    }
  }

  /** Preempting the running process keeps the invariant. */
  lemma SuspendKeepsInv(orig: seq<Process>, s: Sim, a: int)
    requires s.running >= 0
    ensures Inv(orig, s, a) ==> Inv(orig, Suspended(s), a)
  {
    if !Inv(orig, s, a) { return; }
    SuspendKeepsBalance(orig, s, a);
  }

  lemma SuspendKeepsBalance(orig: seq<Process>, s: Sim, a: int)
    requires s.running >= 0
    ensures Inv(orig, s, a) && Shape(orig, Suspended(s), a) ==>
      forall k :: 0 <= k < |orig| ==> Balanced(orig, Suspended(s), a, k)
  {
    if !Inv(orig, s, a) || !Shape(orig, Suspended(s), a) { return; }
    var u := Suspended(s);
    var ts := s.timeSlot;
    assert s.owners[..ts + 1] == s.owners;
    forall k | 0 <= k < |orig| ensures Balanced(orig, u, a, k) {
      assert Balanced(orig, s, a, k);
      ServedClose(s.gantt, s.owners, ts, u.gantt[ts], k);
      assert k in u.queue <==> k in s.queue || k == s.running;
    }
  }

  /** Running the running process to the end of its remaining burst keeps
      the invariant. */
  lemma FinishKeepsInv(orig: seq<Process>, s: Sim, a: int)
    requires s.running >= 0
    ensures Inv(orig, s, a) ==> Inv(orig, Finished(s), a)
  {
    if !Inv(orig, s, a) { return; }
    var u := Finished(s);
    var ts := s.timeSlot;
    assert s.owners[..ts + 1] == s.owners;
    forall k | 0 <= k < |orig| ensures Balanced(orig, u, a, k) {
      assert Balanced(orig, s, a, k);
      ServedClose(s.gantt, s.owners, ts, u.gantt[ts], k);
    }
  }

  /** Taking the head off a queue in which no entry repeats: the head is
      gone, no entry repeats, and every other entry stays. */
  lemma TakeHead(q: seq<int>)
    requires q != [] && forall k :: multiset(q)[k] <= 1
    ensures q[0] !in q[1..]
    ensures forall k :: multiset(q[1..])[k] <= 1
    ensures forall k :: k in q <==> k in q[1..] || k == q[0]
  {
    assert q == [q[0]] + q[1..];
    assert multiset(q) == multiset{q[0]} + multiset(q[1..]);
    forall k ensures multiset(q[1..])[k] <= 1 {
      assert multiset(q)[k] <= 1;
    }
    assert multiset(q)[q[0]] == 1 + multiset(q[1..])[q[0]];
    forall k ensures k in q <==> k in q[1..] || k == q[0] {
      assert k in q <==> k in [q[0]] + q[1..];
    }
  }

  /** Giving the idle CPU to the head of the queue keeps the invariant,
      provided every enqueued process has arrived by now. */
  lemma DispatchKeepsInv(orig: seq<Process>, s: Sim, a: int)
    requires s.running == -1 && s.queue != [] && 0 < a <= |orig|
    requires orig[a - 1].arrivalTime <= s.time
    ensures Inv(orig, s, a) ==> Inv(orig, Dispatched(s), a)
  {
    if !Inv(orig, s, a) { return; }
    var u := Dispatched(s);
    var h := s.queue[0];
    TakeHead(s.queue);
    assert orig[h].arrivalTime <= orig[a - 1].arrivalTime;
    assert u.gantt[..u.timeSlot] == s.gantt[..s.timeSlot];
    assert u.owners[..u.timeSlot] == s.owners[..s.timeSlot];
    forall k | 0 <= k < |orig| ensures Balanced(orig, u, a, k) {
      assert Balanced(orig, s, a, k);
    }
  }

  /** When every process has arrived, none runs and none waits, the log is
      ordered and gives every process exactly its original burst. */
  lemma CompleteLog(orig: seq<Process>, s: Sim)
    requires Inv(orig, s, |orig|) && s.running == -1 && s.queue == []
    ensures Remains(orig, s.procs)
    ensures FinishedLog(orig, s.gantt, s.owners)
  {
    assert s.gantt[..s.timeSlot] == s.gantt && s.owners[..s.timeSlot] == s.owners;
    forall k | 0 <= k < |orig| ensures Served(s.gantt, s.owners, k) == orig[k].burstDuration {
      assert Balanced(orig, s, |orig|, k);
    }
  }

  /** With distinct ids, the time the log gives to a process's id is the
      time it gives to that process. */
  lemma {:induction false} OwnTimeIsServed(orig: seq<Process>, g: seq<TimeSlice>, o: seq<int>, k: int)
    requires UniqueIds(orig) && 0 <= k < |orig| && |g| == |o|
    requires forall j :: 0 <= j < |g| ==> 0 <= o[j] < |orig| && g[j].pid == orig[o[j]].processId
    ensures OwnTime(orig[k].processId, g) == Served(g, o, k)
  {
    if g != [] {
      var n := |g| - 1;
      OwnTimeIsServed(orig, g[..n], o[..n], k);
      assert g[n].pid == orig[k].processId <==> o[n] == k;
    }
  }
}
