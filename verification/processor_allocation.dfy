/**
 * Processor allocation: the earliest time a ready node can start on a given
 * processor, and the choice of a processor among those not excluded.
 *
 * Processors are numbered 1..numProcessors.  A processor's current finish time
 * is derived from the partial schedule: the latest finish of a scheduled node
 * that has run on it (0 for an unused processor).
 */
module ProcessorAllocation {
  import opened Seqs
  import opened TaskGraph
  import opened Readiness

  function Max(a: nat, b: nat): nat {
    if a < b then b else a
  }

  /** The latest finish time of a node of `sched` that has run on processor `p`, or 0. */
  function ProcessorFinish(rs: RunState, sched: seq<Node>, p: int): (r: nat)
    ensures forall m :: m in sched && OnProcessor(rs, m, p) ==> Finish(rs, m) <= r
    ensures r == 0 || exists m :: m in sched && OnProcessor(rs, m, p) && r == Finish(rs, m)
  {
    if |sched| == 0 then 0
    else
      var rest := ProcessorFinish(rs, sched[1..], p);
      if OnProcessor(rs, sched[0], p) then Max(Finish(rs, sched[0]), rest) else rest
  }

  /**
   * When the data carried by edge `e` is available on processor `p`: the
   * finish time of its source, plus the edge's weight unless the source ran on `p`.
   */
  function Arrival(rs: RunState, e: Edge, p: int): nat
    requires Ran(rs, e.src)
  {
    Finish(rs, e.src) + (if rs[e.src.name].processor == p then 0 else e.weight)
  }

  /** The latest arrival over `es` on processor `p`, or 0. */
  function MaxArrival(rs: RunState, es: seq<Edge>, p: int): (r: nat)
    requires forall e :: e in es ==> Ran(rs, e.src)
    ensures forall e :: e in es ==> Arrival(rs, e, p) <= r
    ensures r == 0 || exists e :: e in es && r == Arrival(rs, e, p)
  {
    if |es| == 0 then 0 else Max(Arrival(rs, es[0], p), MaxArrival(rs, es[1..], p))
  }

  /**
   * The earliest start of `n` on processor `p`: the least time that is no
   * earlier than the processor's finish time and no earlier than the arrival
   * of any incoming edge.
   */
  function EarliestStart(g: Graph, rs: RunState, sched: seq<Node>, n: Node, p: int): (r: nat)
    requires Satisfied(g, rs, n)
    ensures forall m :: m in sched && OnProcessor(rs, m, p) ==> Finish(rs, m) <= r
    ensures forall e :: e in g.edges && e.dst == n ==> Arrival(rs, e, p) <= r
    ensures || r == 0
            || (exists m :: m in sched && OnProcessor(rs, m, p) && r == Finish(rs, m))
            || (exists e :: e in g.edges && e.dst == n && r == Arrival(rs, e, p))
  {
    Max(ProcessorFinish(rs, sched, p), MaxArrival(rs, Incoming(g, n), p))
  }

  /** A processor index the allocator may choose. */
  predicate Allowed(q: int, excluded: seq<int>, numProcessors: nat) {
    1 <= q <= numProcessors && q !in excluded
  }

  datatype Placement = Placement(processor: int, start: nat)

  /**
   * The allowed processor among q..numProcessors with the least `cost`, and
   * that cost; ties go to the lower index.
   */
  function BestFrom(cost: int -> nat, excluded: seq<int>, numProcessors: nat, q: int): (r: Option<Placement>)
    requires 1 <= q
    decreases numProcessors + 1 - q
    ensures r.None? <==> forall k :: q <= k <= numProcessors ==> k in excluded
    ensures r.Some? ==> q <= r.value.processor && Allowed(r.value.processor, excluded, numProcessors)
    ensures r.Some? ==> r.value.start == cost(r.value.processor)
    ensures r.Some? ==> forall k :: q <= k && Allowed(k, excluded, numProcessors) ==> r.value.start <= cost(k)
  {
    if q > numProcessors then None
    else
      var rest := BestFrom(cost, excluded, numProcessors, q + 1);
      if q in excluded then rest
      else if rest.Some? && rest.value.start < cost(q) then rest
      else Some(Placement(q, cost(q)))
  }

  datatype Allocation = Allocated(runState: RunState, placement: Placement) | Exhausted

  /**
   * Places ready node `n` on an allowed processor with minimal earliest start
   * and records that processor and start time in the run-state; `Exhausted`
   * when every processor is excluded.
   */
  function AllocateProcessor(g: Graph, rs: RunState, sched: seq<Node>, n: Node,
                             excluded: seq<int>, numProcessors: nat): (r: Allocation)
    requires Satisfied(g, rs, n)
    ensures r.Exhausted? <==> forall k :: 1 <= k <= numProcessors ==> k in excluded
    ensures r.Allocated? ==> Allowed(r.placement.processor, excluded, numProcessors)
    ensures r.Allocated? ==> r.placement.start == EarliestStart(g, rs, sched, n, r.placement.processor)
    ensures r.Allocated? ==> forall k :: Allowed(k, excluded, numProcessors) ==>
                               r.placement.start <= EarliestStart(g, rs, sched, n, k)
    ensures r.Allocated? ==> r.runState == rs[n.name := Run(true, r.placement.processor, r.placement.start)]
  {
    var cost := (k: int) => if Satisfied(g, rs, n) then EarliestStart(g, rs, sched, n, k) else 0;
    match BestFrom(cost, excluded, numProcessors, 1)
    case None => Exhausted
    case Some(pl) => Allocated(rs[n.name := Run(true, pl.processor, pl.start)], pl)
  }

  /** After an allocation, `n` has run on an allowed processor and every other node's run-state is untouched. */
  lemma AllocationRecordsPlacement(g: Graph, rs: RunState, sched: seq<Node>, n: Node,
                                   excluded: seq<int>, numProcessors: nat)
    requires Satisfied(g, rs, n)
    requires AllocateProcessor(g, rs, sched, n, excluded, numProcessors).Allocated?
    ensures var rs' := AllocateProcessor(g, rs, sched, n, excluded, numProcessors).runState;
            && Ran(rs', n)
            && Allowed(rs'[n.name].processor, excluded, numProcessors)
            && rs'[n.name].startTime == EarliestStart(g, rs, sched, n, rs'[n.name].processor)
            && forall m :: m != n.name ==> (m in rs' <==> m in rs) && (m in rs ==> rs'[m] == rs[m])
  {
  }

  /** A processor's finish time depends only on the run-state of the scheduled nodes. */
  lemma {:induction false} ProcessorFinishFrame(rs1: RunState, rs2: RunState, sched: seq<Node>, p: int)
    requires forall m :: m in sched ==> (m.name in rs1 <==> m.name in rs2)
    requires forall m :: m in sched && m.name in rs1 ==> rs1[m.name] == rs2[m.name]
    ensures ProcessorFinish(rs1, sched, p) == ProcessorFinish(rs2, sched, p)
  {
    if |sched| > 0 {
      assert sched[0] in sched;
      ProcessorFinishFrame(rs1, rs2, sched[1..], p);
    }
  }

  /** Keeping only the nodes that ran on `p` does not change that processor's finish time. */
  lemma {:induction false} ProcessorFinishOfOwnNodes(rs: RunState, sched: seq<Node>, p: int)
    ensures ProcessorFinish(rs, Filter(sched, (m: Node) => OnProcessor(rs, m, p)), p)
            == ProcessorFinish(rs, sched, p)
  {
    var own := (m: Node) => OnProcessor(rs, m, p);
    if |sched| > 0 {
      assert sched == [sched[0]] + sched[1..];
      FilterCons(sched[0], sched[1..], own);
      ProcessorFinishOfOwnNodes(rs, sched[1..], p);
      if own(sched[0]) {
        var f := Filter(sched, own);
        assert f[0] == sched[0] && f[1..] == Filter(sched[1..], own);
      }
    }
  }
}
