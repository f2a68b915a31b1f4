/**
 * The search coordinator's sequential logic (MasterScheduler): the serial
 * initial bound, the best-bound/best-schedule update rule, and the FIFO drain
 * of the result queue that workers append to.
 */
module Coordinator {
  import opened Seqs
  import opened TaskGraph
  import opened ProcessorAllocation

  type Schedule = seq<Node>

  /** A complete schedule reported by a search worker, with its makespan. */
  datatype Report = Report(schedule: Schedule, bound: int)

  /** The shared best bound and the schedule that achieves it; `None` is the initial null reference. */
  datatype Best = Best(bound: int, schedule: Option<Schedule>)

  /** The coordinator's state: its best pair and the pending result queue, oldest first. */
  datatype Coordinator = Coordinator(best: Best, queue: seq<Report>)

  /** Total processing time of `nodes`. */
  function SumWeights(nodes: seq<Node>): nat {
    if |nodes| == 0 then 0 else nodes[0].weight + SumWeights(nodes[1..])
  }

  lemma {:induction false} SumWeightsAppend(a: seq<Node>, b: seq<Node>)
    ensures SumWeights(a + b) == SumWeights(a) + SumWeights(b)
  {
    if |a| == 0 {
      assert a + b == b;
    } else {
      assert (a + b)[1..] == a[1..] + b;
      SumWeightsAppend(a[1..], b);
    }
  }

  /** The initial bound: the weights of all nodes added up one by one. */
  method SerialBound(nodes: seq<Node>) returns (bound: int)
    ensures bound == SumWeights(nodes)
  {
    bound := 0;
    var i := 0;
    while i < |nodes|
      invariant 0 <= i <= |nodes|
      invariant bound == SumWeights(nodes[..i])
    {
      assert nodes[..i + 1] == nodes[..i] + [nodes[i]];
      SumWeightsAppend(nodes[..i], [nodes[i]]);
      assert SumWeights([nodes[i]]) == nodes[i].weight;
      bound := bound + nodes[i].weight;
      i := i + 1;
    }
    assert nodes[..i] == nodes;
  }

  /** All of `nodes` run back to back on processor 1 in list order, the first starting at `t`. */
  function SerialRun(nodes: seq<Node>, t: nat): RunState {
    if |nodes| == 0 then map[]
    else SerialRun(nodes[1..], t + nodes[0].weight)[nodes[0].name := Run(true, 1, t)]
  }

  /**
   * The serial schedule finishes exactly at the serial bound: running every
   * node one after another on a single processor takes the sum of the weights.
   */
  lemma {:induction false} SerialScheduleMakespan(nodes: seq<Node>, t: nat)
    requires UniqueNames(nodes)
    requires |nodes| > 0
    ensures ProcessorFinish(SerialRun(nodes, t), nodes, 1) == t + SumWeights(nodes)
  {
    var rs := SerialRun(nodes, t);
    var rest := nodes[1..];
    var t' := t + nodes[0].weight;
    var rs' := SerialRun(rest, t');
    assert OnProcessor(rs, nodes[0], 1) && Finish(rs, nodes[0]) == t';
    if |rest| == 0 {
      assert ProcessorFinish(rs, rest, 1) == 0;
    } else {
      forall m | m in rest
        ensures m.name in rs <==> m.name in rs'
        ensures m.name in rs ==> rs[m.name] == rs'[m.name]
      {
        var k :| 0 <= k < |rest| && rest[k] == m;
        assert nodes[k + 1] == m;
      }
      assert UniqueNames(rest) by {
        forall i, j | 0 <= i < j < |rest| ensures rest[i].name != rest[j].name {
          assert rest[i] == nodes[i + 1] && rest[j] == nodes[j + 1];
        }
      }
      ProcessorFinishFrame(rs, rs', rest, 1);
      SerialScheduleMakespan(rest, t');
    }
  }

  /**
   * The coordinator's starting state: no schedule yet, an empty queue, and as
   * bound the makespan of the serial schedule, a schedule every graph admits.
   */
  function Initial(nodes: seq<Node>): (c: Coordinator)
    ensures UniqueNames(nodes) ==> c.best.bound == ProcessorFinish(SerialRun(nodes, 0), nodes, 1)
    ensures c.best.schedule.None? && c.queue == []
  {
    var c := Coordinator(Best(SumWeights(nodes), None), []);
    if |nodes| > 0 && UniqueNames(nodes) then SerialScheduleMakespan(nodes, 0); c else c
  }

  /** No schedule is recorded: the reference is unset or the recorded list is empty. */
  predicate NoSchedule(b: Best) {
    b.schedule.None? || |b.schedule.value| == 0
  }

  /**
   * Merges one reported result: a strictly better bound replaces bound and
   * schedule; an equal bound only fills in a missing schedule; a worse bound
   * changes nothing.
   */
  function CompareBounds(b: Best, rep: Report): (r: Best)
    ensures r.bound == if rep.bound < b.bound then rep.bound else b.bound
    ensures rep.bound < b.bound ==> r.schedule == Some(rep.schedule)
    ensures rep.bound > b.bound ==> r == b
    ensures rep.bound == b.bound && NoSchedule(b) ==> r.schedule == Some(rep.schedule)
    ensures rep.bound == b.bound && !NoSchedule(b) ==> r == b
  {
    if rep.bound < b.bound then Best(rep.bound, Some(rep.schedule))
    else if rep.bound == b.bound && NoSchedule(b) then Best(b.bound, Some(rep.schedule))
    else b
  }

  /** Merges the reports of `q` one at a time, oldest first. */
  function Drain(b: Best, q: seq<Report>): (r: Best)
    decreases |q|
    ensures r.bound <= b.bound
    ensures forall i :: 0 <= i < |q| ==> r.bound <= q[i].bound
    ensures r.bound == b.bound || exists i :: 0 <= i < |q| && r.bound == q[i].bound
  {
    if |q| == 0 then b else Drain(CompareBounds(b, q[0]), q[1..])
  }

  /** Draining two batches one after the other is draining their concatenation. */
  lemma {:induction false} DrainAppend(b: Best, q1: seq<Report>, q2: seq<Report>)
    ensures Drain(b, q1 + q2) == Drain(Drain(b, q1), q2)
    decreases |q1|
  {
    if |q1| > 0 {
      assert (q1 + q2)[0] == q1[0];
      assert (q1 + q2)[1..] == q1[1..] + q2;
      var b1 := CompareBounds(b, q1[0]);
      DrainAppend(b1, q1[1..], q2);
      assert Drain(b, q1 + q2) == Drain(b1, q1[1..] + q2);
      assert Drain(b, q1) == Drain(b1, q1[1..]);
    } else {
      assert q1 + q2 == q2;
    }
  }

  /** A drain that does not lower the bound keeps a recorded schedule. */
  lemma {:induction false} DrainKeepsRecorded(b: Best, q: seq<Report>)
    requires !NoSchedule(b)
    requires Drain(b, q).bound == b.bound
    ensures Drain(b, q) == b
    decreases |q|
  {
    if |q| > 0 {
      var b1 := CompareBounds(b, q[0]);
      assert b1 == b;
      DrainKeepsRecorded(b1, q[1..]);
    }
  }

  /**
   * First found wins: when the drain improves on the starting bound and every
   * report carries a non-empty schedule, the recorded schedule is that of the
   * oldest report achieving the final bound.
   */
  lemma {:induction false} DrainFirstFound(b: Best, q: seq<Report>)
    requires forall i :: 0 <= i < |q| ==> |q[i].schedule| > 0
    requires Drain(b, q).bound < b.bound
    decreases |q|
    ensures exists i :: 0 <= i < |q|
                        && q[i].bound == Drain(b, q).bound
                        && Drain(b, q).schedule == Some(q[i].schedule)
                        && forall j :: 0 <= j < i ==> q[j].bound > Drain(b, q).bound
  {
    var r := Drain(b, q);
    var b1 := CompareBounds(b, q[0]);
    var rest := q[1..];
    assert r == Drain(b1, rest);
    if r.bound < b1.bound {
      DrainFirstFound(b1, rest);
      var i :| 0 <= i < |rest| && rest[i].bound == r.bound && r.schedule == Some(rest[i].schedule)
               && forall j :: 0 <= j < i ==> rest[j].bound > r.bound;
      assert q[0].bound >= b1.bound;
      forall j | 0 <= j < i + 1 ensures q[j].bound > r.bound {
        if j > 0 { assert q[j] == rest[j - 1]; }
      }
      assert q[i + 1] == rest[i];
    } else {
      assert b1.schedule == Some(q[0].schedule);
      DrainKeepsRecorded(b1, rest);
    }
  }

  /** A worker's report is appended to the back of the queue; nothing else changes. */
  function Compare(c: Coordinator, schedule: Schedule, bound: int): (r: Coordinator)
    ensures |r.queue| == |c.queue| + 1
    ensures r.queue[..|c.queue|] == c.queue && r.queue[|c.queue|] == Report(schedule, bound)
    ensures r.best == c.best
  {
    Coordinator(c.best, c.queue + [Report(schedule, bound)])
  }

  /** Removes reports from the front of the queue until it is empty, merging each. */
  method CheckQueue(c: Coordinator) returns (r: Coordinator)
    ensures r.queue == []
    ensures r.best == Drain(c.best, c.queue)
  {
    var best := c.best;
    var queue := c.queue;
    while |queue| > 0
      invariant Drain(best, queue) == Drain(c.best, c.queue)
    {
      var head := queue[0];
      queue := queue[1..];
      best := CompareBounds(best, head);
    }
    r := Coordinator(best, queue);
  }

  /** FIFO: a report appended by `Compare` is merged after everything already queued. */
  lemma CompareThenDrain(c: Coordinator, schedule: Schedule, bound: int)
    ensures var c' := Compare(c, schedule, bound);
            Drain(c'.best, c'.queue) == CompareBounds(Drain(c.best, c.queue), Report(schedule, bound))
  {
    DrainAppend(c.best, c.queue, [Report(schedule, bound)]);
    assert [Report(schedule, bound)][1..] == [];
  }

  /**
   * After draining everything reported from the initial state, the best bound
   * is the serial bound or the least reported bound, whichever is smaller.
   */
  lemma DrainFromInitial(nodes: seq<Node>, q: seq<Report>)
    ensures var r := Drain(Initial(nodes).best, q);
            && r.bound <= SumWeights(nodes)
            && (forall i :: 0 <= i < |q| ==> r.bound <= q[i].bound)
            && (r.bound == SumWeights(nodes) || exists i :: 0 <= i < |q| && r.bound == q[i].bound)
  {
  }

  // ---------------------------------------------------------------------------
  // The update rule as written.  Two references it uses are never assigned: the
  // list of workers to notify of a better bound, and the best schedule, which
  // starts out null.

  datatype Fault =
    | NullSchedulerList  // the notification loop walks the unassigned worker list
    | NullSchedule       // the tie test asks the unset best schedule for its size

  datatype Outcome = Merged(best: Best) | Crashed(fault: Fault)

  /**
   * `compareBounds` as written: a strictly better report faults in the
   * notification loop after the bound is lowered and before the schedule is
   * stored, and an equal report faults while no schedule is set.
   */
  function CompareBoundsAsWritten(b: Best, rep: Report): (r: Outcome)
    ensures r == Crashed(NullSchedulerList) <==> rep.bound < b.bound
    ensures r == Crashed(NullSchedule) <==> rep.bound == b.bound && b.schedule.None?
    ensures r.Merged? ==> r.best == CompareBounds(b, rep)
  {
    if rep.bound < b.bound then Crashed(NullSchedulerList)
    else if rep.bound == b.bound then
      match b.schedule
      case None => Crashed(NullSchedule)
      case Some(s) => if |s| == 0 then Merged(Best(b.bound, Some(rep.schedule))) else Merged(b)
    else Merged(b)
  }

  /** `checkQueue` as written: the first fault ends the drain. */
  function DrainAsWritten(b: Best, q: seq<Report>): Outcome
    decreases |q|
  {
    if |q| == 0 then Merged(b)
    else match CompareBoundsAsWritten(b, q[0])
      case Crashed(f) => Crashed(f)
      case Merged(b1) => DrainAsWritten(b1, q[1..])
  }

  /**
   * As written, no schedule is ever recorded: starting with none, the drain
   * faults exactly when some report is at least as good as the current bound,
   * and otherwise leaves the best pair as it found it.
   */
  lemma {:induction false} AsWrittenNeverRecords(b: Best, q: seq<Report>)
    requires b.schedule.None?
    decreases |q|
    ensures DrainAsWritten(b, q).Crashed? <==> exists i :: 0 <= i < |q| && q[i].bound <= b.bound
    ensures DrainAsWritten(b, q).Merged? ==> DrainAsWritten(b, q).best == b
  {
    if |q| > 0 {
      if q[0].bound > b.bound {
        AsWrittenNeverRecords(b, q[1..]);
        assert DrainAsWritten(b, q) == DrainAsWritten(b, q[1..]);
        forall i | 0 <= i < |q| && q[i].bound <= b.bound
          ensures exists j :: 0 <= j < |q[1..]| && q[1..][j].bound <= b.bound
        {
          assert i > 0 && q[1..][i - 1] == q[i];
        }
        forall j | 0 <= j < |q[1..]| && q[1..][j].bound <= b.bound
          ensures exists i :: 0 <= i < |q| && q[i].bound <= b.bound
        {
          assert q[j + 1] == q[1..][j];
        }
      }
    }
  }

  /**
   * The first report better than the serial bound crashes the coordinator as
   * written, while the corrected rule records it with its schedule.
   */
  lemma AsWrittenCrashesOnFirstImprovement(nodes: seq<Node>, rep: Report)
    requires rep.bound < SumWeights(nodes)
    ensures CompareBoundsAsWritten(Initial(nodes).best, rep) == Crashed(NullSchedulerList)
    ensures CompareBounds(Initial(nodes).best, rep) == Best(rep.bound, Some(rep.schedule))
  {
  }

  /**
   * The first report that merely matches the serial bound crashes the
   * coordinator.  A one-node graph shows it: its only schedule runs the node
   * alone, so its makespan equals the serial bound.
   */
  lemma AsWrittenCrashesOnFirstTie(n: Node)
    ensures CompareBoundsAsWritten(Initial([n]).best, Report([n], n.weight)) == Crashed(NullSchedule)
    ensures CompareBounds(Initial([n]).best, Report([n], n.weight)) == Best(n.weight, Some([n]))
  {
    assert SumWeights([n]) == n.weight;
  }
}
