/** Ordering SJFSchedule's waiting queue (indices into the process slice) by
    the processes' current burst durations. Go's sort.Slice promises only a
    permutation that is nondecreasing in the key; the insertion sort below is
    one such permutation, and callers rely on that contract alone. */
module BurstOrder {
  import opened Scheduling

  /** Every entry of `q` indexes a process of `ps`. */
  predicate IndicesOf(ps: seq<Process>, q: seq<int>) {
    forall k :: 0 <= k < |q| ==> 0 <= q[k] < |ps|
  }

  /** The processes named by `q` have nondecreasing bursts. */
  predicate SortedByBurst(ps: seq<Process>, q: seq<int>)
    requires IndicesOf(ps, q)
  {
    forall i, j :: 0 <= i < j < |q| ==> ps[q[i]].burstDuration <= ps[q[j]].burstDuration
  }

  /** Puts `x` in front of the first entry whose burst is not shorter. */
  function Insert(ps: seq<Process>, x: int, s: seq<int>): (r: seq<int>)
    requires 0 <= x < |ps| && IndicesOf(ps, s) && SortedByBurst(ps, s)
    ensures IndicesOf(ps, r) && SortedByBurst(ps, r)
    ensures multiset(r) == multiset(s) + multiset{x}
  {
    if s == [] || ps[x].burstDuration <= ps[s[0]].burstDuration then
      InsertFront(ps, x, s);
      [x] + s
    else
      var t := Insert(ps, x, s[1..]);
      InsertBehind(ps, x, s, t);
      [s[0]] + t
  }

  lemma InsertFront(ps: seq<Process>, x: int, s: seq<int>)
    requires 0 <= x < |ps| && IndicesOf(ps, s) && SortedByBurst(ps, s)
    requires s == [] || ps[x].burstDuration <= ps[s[0]].burstDuration
    ensures IndicesOf(ps, [x] + s) && SortedByBurst(ps, [x] + s)
  {
    var r := [x] + s;
    forall i, j | 0 <= i < j < |r| ensures ps[r[i]].burstDuration <= ps[r[j]].burstDuration {
      if i == 0 && j > 1 {
        assert ps[s[0]].burstDuration <= ps[s[j - 1]].burstDuration;
      }
    }
  }

  lemma InsertBehind(ps: seq<Process>, x: int, s: seq<int>, t: seq<int>)
    requires 0 <= x < |ps| && IndicesOf(ps, s) && SortedByBurst(ps, s)
    requires s != [] && ps[s[0]].burstDuration < ps[x].burstDuration
    requires IndicesOf(ps, t) && SortedByBurst(ps, t)
    requires multiset(t) == multiset(s[1..]) + multiset{x}
    ensures IndicesOf(ps, [s[0]] + t) && SortedByBurst(ps, [s[0]] + t)
    ensures multiset([s[0]] + t) == multiset(s) + multiset{x}
  {
    assert s == [s[0]] + s[1..];
    forall e | e in t ensures ps[s[0]].burstDuration <= ps[e].burstDuration {
      assert e in multiset(t);
      if e != x {
        assert e in multiset(s[1..]);
        var k :| 0 <= k < |s[1..]| && s[1..][k] == e;
        assert s[k + 1] == e;
      }
    }
    var r := [s[0]] + t;
    forall i, j | 0 <= i < j < |r| ensures ps[r[i]].burstDuration <= ps[r[j]].burstDuration {
      if i == 0 {
        assert r[j] == t[j - 1] && t[j - 1] in t;
      } else {
        assert r[i] == t[i - 1] && r[j] == t[j - 1];
      }
    }
  }

  /** The queue reordered by burst: a nondecreasing permutation. */
  function SortByBurst(ps: seq<Process>, q: seq<int>): (r: seq<int>)
    requires IndicesOf(ps, q)
    ensures IndicesOf(ps, r) && SortedByBurst(ps, r)
    ensures multiset(r) == multiset(q)
  {
    if q == [] then []
    else
      assert q == [q[0]] + q[1..];
      Insert(ps, q[0], SortByBurst(ps, q[1..]))
  }

  /** The head of a sorted queue is a shortest job of the queue. */
  lemma {:induction false} HeadIsShortest(ps: seq<Process>, q: seq<int>, x: int)
    requires IndicesOf(ps, q) && SortedByBurst(ps, q)
    requires x in q
    ensures ps[q[0]].burstDuration <= ps[x].burstDuration
  {
    var k :| 0 <= k < |q| && q[k] == x;
    if k > 0 {
      assert ps[q[0]].burstDuration <= ps[q[k]].burstDuration;
    }
  }
}
