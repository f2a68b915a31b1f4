/**
 * Readiness analysis (the scheduler's ValidNodeFinder): which nodes have no
 * predecessors, and which nodes have every predecessor completed.  All three
 * queries are pure reads of the graph and the run-state.
 */
module Readiness {
  import opened Seqs
  import opened TaskGraph

  /** `n` has no incoming edge. */
  predicate IsRoot(g: Graph, n: Node) {
    forall e :: e in g.edges ==> e.dst != n
  }

  /** Every predecessor of `n` has run. */
  predicate Satisfied(g: Graph, rs: RunState, n: Node) {
    forall e :: e in g.edges && e.dst == n ==> Ran(rs, e.src)
  }

  /** The end nodes of `es`, one per edge, in edge order. */
  function Targets(es: seq<Edge>): (r: seq<Node>)
    ensures |r| == |es|
    ensures forall i :: 0 <= i < |es| ==> r[i] == es[i].dst
    ensures forall x :: x in r <==> exists e :: e in es && e.dst == x
  {
    if |es| == 0 then [] else [es[0].dst] + Targets(es[1..])
  }

  /** The nodes of `ns` without incoming edges, in input order. */
  function FindRootNodes(g: Graph, ns: seq<Node>): (r: seq<Node>)
    ensures |r| <= |ns|
    ensures forall x :: x in r <==> x in ns && IsRoot(g, x)
  {
    Filter(ns, (n: Node) => IsRoot(g, n))
  }

  /** The successors of `n` all of whose predecessors have run, in outgoing-edge order. */
  function FindSatisfiedChildren(g: Graph, rs: RunState, n: Node): (r: seq<Node>)
    ensures forall x :: x in r <==> (exists e :: e in g.edges && e.src == n && e.dst == x) && Satisfied(g, rs, x)
  {
    Filter(Targets(Outgoing(g, n)), (c: Node) => Satisfied(g, rs, c))
  }

  /** The nodes of `ns` that have not run but whose predecessors all have, in input order. */
  function FindSatisfiedNodes(g: Graph, rs: RunState, ns: seq<Node>): (r: seq<Node>)
    ensures |r| <= |ns|
    ensures forall x :: x in r <==> x in ns && !Ran(rs, x) && Satisfied(g, rs, x)
  {
    Filter(ns, (n: Node) => !Ran(rs, n) && Satisfied(g, rs, n))
  }

  /** Root finding keeps input order: it distributes over concatenation. */
  lemma FindRootNodesAppend(g: Graph, a: seq<Node>, b: seq<Node>)
    ensures FindRootNodes(g, a + b) == FindRootNodes(g, a) + FindRootNodes(g, b)
  {
    FilterAppend(a, b, (n: Node) => IsRoot(g, n));
  }

  /** Satisfied-node finding keeps input order: it distributes over concatenation. */
  lemma FindSatisfiedNodesAppend(g: Graph, rs: RunState, a: seq<Node>, b: seq<Node>)
    ensures FindSatisfiedNodes(g, rs, a + b) == FindSatisfiedNodes(g, rs, a) + FindSatisfiedNodes(g, rs, b)
  {
    FilterAppend(a, b, (n: Node) => !Ran(rs, n) && Satisfied(g, rs, n));
  }

  /** Before anything has run, the satisfied nodes are exactly the roots, in the same order. */
  lemma NothingRunSatisfiedAreRoots(g: Graph, rs: RunState, ns: seq<Node>)
    requires forall x :: x in ns ==> !Ran(rs, x)
    requires forall e :: e in g.edges ==> !Ran(rs, e.src)
    ensures FindSatisfiedNodes(g, rs, ns) == FindRootNodes(g, ns)
  {
    forall x | x in ns
      ensures (!Ran(rs, x) && Satisfied(g, rs, x)) == IsRoot(g, x)
    {
      if !IsRoot(g, x) {
        var e :| e in g.edges && e.dst == x;
        assert !Ran(rs, e.src);
      }
    }
    FilterCongruent(ns, (n: Node) => !Ran(rs, n) && Satisfied(g, rs, n), (n: Node) => IsRoot(g, n));
  }

  /** Running more nodes never un-satisfies a node. */
  lemma SatisfiedMonotone(g: Graph, rs: RunState, rs': RunState, n: Node)
    requires forall m :: Ran(rs, m) ==> Ran(rs', m)
    requires Satisfied(g, rs, n)
    ensures Satisfied(g, rs', n)
  {
  }

  /** A successor of a node stays out of `FindSatisfiedChildren` while any of its predecessors has not run. */
  lemma ChildBlockedByUnrunPredecessor(g: Graph, rs: RunState, n: Node, e: Edge, blocker: Edge)
    requires e in g.edges && e.src == n
    requires blocker in g.edges && blocker.dst == e.dst
    requires !Ran(rs, blocker.src)
    ensures e.dst !in FindSatisfiedChildren(g, rs, n)
  {
  }
}
