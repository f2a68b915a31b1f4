/**
 * Search-space partitions handed to workers (the coordinator's SubpathTuple):
 * a copy of the graph and its run-state, a node stack of ready-node levels,
 * and a processor allocator holding the nodes placed on each processor.
 * Cloning copies all of it so that no two workers share search state.
 */
module Subpaths {
  import opened Seqs
  import opened TaskGraph
  import opened Readiness
  import opened ProcessorAllocation

  /** The nodes placed on each processor, in placement order; processor p is at index p - 1. */
  datatype Allocator = Allocator(procs: seq<seq<Node>>)

  datatype Subpath = Subpath(graph: Graph, runState: RunState, stack: seq<seq<Node>>, alloc: Allocator)

  function NewAllocator(numProcessors: nat): (a: Allocator)
    ensures |a.procs| == numProcessors
    ensures forall i :: 0 <= i < numProcessors ==> a.procs[i] == []
  {
    Allocator(seq(numProcessors, _ => []))
  }

  /** Places `n` last on processor `p`; the other processors are untouched. */
  function AddToProcessor(a: Allocator, n: Node, p: int): (r: Allocator)
    requires 1 <= p <= |a.procs|
    ensures |r.procs| == |a.procs|
    ensures r.procs[p - 1] == a.procs[p - 1] + [n]
    ensures forall i :: 0 <= i < |a.procs| && i != p - 1 ==> r.procs[i] == a.procs[i]
  {
    Allocator(a.procs[p - 1 := a.procs[p - 1] + [n]])
  }

  /** Every node of `nodes` that has run sits on one of the processors 1..numProcessors. */
  predicate ProcessorsInRange(rs: RunState, nodes: seq<Node>, numProcessors: nat) {
    forall n :: n in nodes && Ran(rs, n) ==> 1 <= rs[n.name].processor <= numProcessors
  }

  /** Adds every node of `nodes` that has run to its recorded processor, in list order. */
  function RebuildAllocator(rs: RunState, nodes: seq<Node>, numProcessors: nat): (a: Allocator)
    requires ProcessorsInRange(rs, nodes, numProcessors)
    ensures |a.procs| == numProcessors
    decreases |nodes|
  {
    if |nodes| == 0 then NewAllocator(numProcessors)
    else
      var last := nodes[|nodes| - 1];
      var a := RebuildAllocator(rs, nodes[..|nodes| - 1], numProcessors);
      if Ran(rs, last) then AddToProcessor(a, last, rs[last.name].processor) else a
  }

  /** The nodes of `nodes` that have run on processor `p`, in list order. */
  function RanOn(rs: RunState, nodes: seq<Node>, p: int): seq<Node> {
    Filter(nodes, (m: Node) => OnProcessor(rs, m, p))
  }

  /**
   * The rebuilt allocator's processor `p` holds exactly the nodes that have
   * run on `p`, in list order.
   */
  lemma {:induction false} RebuildAllocatorContents(rs: RunState, nodes: seq<Node>, numProcessors: nat, p: int)
    requires ProcessorsInRange(rs, nodes, numProcessors)
    requires 1 <= p <= numProcessors
    ensures RebuildAllocator(rs, nodes, numProcessors).procs[p - 1] == RanOn(rs, nodes, p)
    decreases |nodes|
  {
    var own := (m: Node) => OnProcessor(rs, m, p);
    if |nodes| == 0 {
      assert RanOn(rs, nodes, p) == [];
    } else {
      var init := nodes[..|nodes| - 1];
      var last := nodes[|nodes| - 1];
      var a := RebuildAllocator(rs, init, numProcessors);
      assert nodes == init + [last];
      RebuildAllocatorContents(rs, init, numProcessors, p);
      FilterAppend(init, [last], own);
      FilterCons(last, [], own);
      assert [last] + [] == [last];
      assert RanOn(rs, nodes, p) == RanOn(rs, init, p) + (if own(last) then [last] else []);
      if Ran(rs, last) {
        assert last in nodes;
        var q := rs[last.name].processor;
        assert RebuildAllocator(rs, nodes, numProcessors) == AddToProcessor(a, last, q);
      } else {
        assert RebuildAllocator(rs, nodes, numProcessors) == a;
      }
    }
  }

  /** The node of `nodes` equal to `x`, or `x` itself when there is none. */
  function Resolve(nodes: seq<Node>, x: Node): (r: Node)
    ensures Lookup(nodes, x.name).Some? ==> r in nodes && r.name == x.name
  {
    match Lookup(nodes, x.name)
    case Some(m) => m
    case None => x
  }

  /** An edge re-pointed at the equal nodes of `nodes`. */
  function Relink(nodes: seq<Node>, e: Edge): Edge {
    Edge(Resolve(nodes, e.src), Resolve(nodes, e.dst), e.weight)
  }

  /** A stack level re-pointed at `nodes`; a node with no equal node in `nodes` is dropped. */
  function CloneLevel(nodes: seq<Node>, level: seq<Node>): (r: seq<Node>)
    ensures |r| <= |level|
    ensures forall x :: x in r ==> x in nodes
  {
    if |level| == 0 then []
    else
      var rest := CloneLevel(nodes, level[1..]);
      match Lookup(nodes, level[0].name)
      case Some(m) => [m] + rest
      case None => rest
  }

  /**
   * The copy a new worker receives: the same node list and run-state, every
   * edge and every stack level re-pointed at the copied nodes, and an allocator
   * rebuilt from the nodes that have run.
   */
  function CloneSubpath(t: Subpath, numProcessors: nat): (r: Subpath)
    requires ProcessorsInRange(t.runState, t.graph.nodes, numProcessors)
    ensures r.graph.nodes == t.graph.nodes && r.runState == t.runState
    ensures |r.graph.edges| == |t.graph.edges|
    ensures forall i :: 0 <= i < |t.graph.edges| ==>
              var e, e' := t.graph.edges[i], r.graph.edges[i];
              && e'.weight == e.weight
              && (Lookup(t.graph.nodes, e.src.name).Some? ==> e'.src in r.graph.nodes && e'.src.name == e.src.name)
              && (Lookup(t.graph.nodes, e.dst.name).Some? ==> e'.dst in r.graph.nodes && e'.dst.name == e.dst.name)
    ensures |r.stack| == |t.stack|
    ensures forall i :: 0 <= i < |t.stack| ==> |r.stack[i]| <= |t.stack[i]|
    ensures forall i, x :: 0 <= i < |t.stack| && x in r.stack[i] ==> x in r.graph.nodes
    ensures |r.alloc.procs| == numProcessors
  {
    var nodes := t.graph.nodes;
    var edges := seq(|t.graph.edges|, i requires 0 <= i < |t.graph.edges| => Relink(nodes, t.graph.edges[i]));
    var stack := seq(|t.stack|, i requires 0 <= i < |t.stack| => CloneLevel(nodes, t.stack[i]));
    Subpath(Graph(nodes, edges), t.runState, stack, RebuildAllocator(t.runState, nodes, numProcessors))
  }

  /** With unique names, a level whose nodes are all in the list is copied unchanged. */
  lemma {:induction false} CloneLevelFaithful(nodes: seq<Node>, level: seq<Node>)
    requires UniqueNames(nodes)
    requires forall x :: x in level ==> x in nodes
    ensures CloneLevel(nodes, level) == level
  {
    if |level| > 0 {
      assert level[0] in level;
      LookupMember(nodes, level[0]);
      CloneLevelFaithful(nodes, level[1..]);
      assert [level[0]] + level[1..] == level;
    }
  }

  /** Every stacked node has an equal node in the list. */
  predicate StackInNodes(t: Subpath) {
    forall i, x :: 0 <= i < |t.stack| && x in t.stack[i] ==> x in t.graph.nodes
  }

  /**
   * Given unique names and every stacked node present in the list, the clone
   * has the same nodes, the same edges, and the same stack level by level,
   * each level with the same nodes in the same order.
   */
  lemma CloneFaithful(t: Subpath, numProcessors: nat)
    requires WellFormed(t.graph)
    requires StackInNodes(t)
    requires ProcessorsInRange(t.runState, t.graph.nodes, numProcessors)
    ensures CloneSubpath(t, numProcessors).graph == t.graph
    ensures CloneSubpath(t, numProcessors).stack == t.stack
  {
    var r := CloneSubpath(t, numProcessors);
    forall i | 0 <= i < |t.stack| ensures r.stack[i] == t.stack[i] {
      CloneLevelFaithful(t.graph.nodes, t.stack[i]);
    }
    forall i | 0 <= i < |t.graph.edges| ensures r.graph.edges[i] == t.graph.edges[i] {
      var e := t.graph.edges[i];
      assert e in t.graph.edges;
      LookupMember(t.graph.nodes, e.src);
      LookupMember(t.graph.nodes, e.dst);
    }
  }

  /**
   * In the clone, each processor of the allocator holds exactly the nodes that
   * have run on it, in list order.
   */
  lemma CloneAllocatorHoldsRunNodes(t: Subpath, numProcessors: nat)
    requires ProcessorsInRange(t.runState, t.graph.nodes, numProcessors)
    ensures var r := CloneSubpath(t, numProcessors);
            forall p :: 1 <= p <= numProcessors ==> r.alloc.procs[p - 1] == RanOn(r.runState, r.graph.nodes, p)
  {
    forall p | 1 <= p <= numProcessors {
      RebuildAllocatorContents(t.runState, t.graph.nodes, numProcessors, p);
    }
  }

  /**
   * A processor's finish time read from the allocator's contents agrees with the
   * one derived from the node list, so both ways of holding processor state
   * give the same earliest start times.
   */
  lemma AllocatorFinishAgrees(rs: RunState, nodes: seq<Node>, numProcessors: nat, p: int)
    requires ProcessorsInRange(rs, nodes, numProcessors)
    requires 1 <= p <= numProcessors
    ensures ProcessorFinish(rs, RebuildAllocator(rs, nodes, numProcessors).procs[p - 1], p)
            == ProcessorFinish(rs, nodes, p)
  {
    RebuildAllocatorContents(rs, nodes, numProcessors, p);
    ProcessorFinishOfOwnNodes(rs, nodes, p);
  }

  /** Allocation on a clone places a node exactly as on the original. */
  lemma CloneAllocatesAlike(t: Subpath, numProcessors: nat, sched: seq<Node>, n: Node, excluded: seq<int>)
    requires WellFormed(t.graph)
    requires StackInNodes(t)
    requires ProcessorsInRange(t.runState, t.graph.nodes, numProcessors)
    requires Satisfied(t.graph, t.runState, n)
    ensures var r := CloneSubpath(t, numProcessors);
            && Satisfied(r.graph, r.runState, n)
            && AllocateProcessor(r.graph, r.runState, sched, n, excluded, numProcessors)
               == AllocateProcessor(t.graph, t.runState, sched, n, excluded, numProcessors)
  {
    CloneFaithful(t, numProcessors);
  }

  /**
   * The single partition the coordinator starts from: nothing has run, one
   * stack level holding the root nodes, and every processor empty.
   */
  function InitialSubpath(g: Graph, numProcessors: nat): (r: Subpath)
    ensures r.graph == g && r.runState == map[]
    ensures |r.stack| == 1
    ensures forall x :: x in r.stack[0] <==> x in g.nodes && IsRoot(g, x)
    ensures |r.alloc.procs| == numProcessors && forall i :: 0 <= i < numProcessors ==> r.alloc.procs[i] == []
  {
    Subpath(g, map[], [FindRootNodes(g, g.nodes)], NewAllocator(numProcessors))
  }

  /** With nothing run, rebuilding gives the empty allocator. */
  lemma {:induction false} RebuildNothingRun(nodes: seq<Node>, numProcessors: nat)
    ensures RebuildAllocator(map[], nodes, numProcessors) == NewAllocator(numProcessors)
    decreases |nodes|
  {
    if |nodes| > 0 {
      RebuildNothingRun(nodes[..|nodes| - 1], numProcessors);
    }
  }

  /** Cloning the initial partition of a well-formed graph gives back the same partition. */
  lemma CloneInitialSubpath(g: Graph, numProcessors: nat)
    requires WellFormed(g)
    ensures CloneSubpath(InitialSubpath(g, numProcessors), numProcessors) == InitialSubpath(g, numProcessors)
  {
    var t := InitialSubpath(g, numProcessors);
    assert StackInNodes(t);
    CloneFaithful(t, numProcessors);
    RebuildNothingRun(g.nodes, numProcessors);
  }
}
