/**
 * The task graph: weighted nodes, weighted precedence edges, and the per-branch
 * run-state of every node.
 *
 * Nodes are values identified by their name; an edge holds copies of its two
 * endpoint nodes.  The run-state is a map from node name to (hasRun, processor,
 * start time); a name missing from the map is a node that has not run.  This
 * covers both representations the scheduler's tests use: run-state held in a
 * name-keyed table, and run-state held on the node objects themselves.
 */
module TaskGraph {
  import opened Seqs

  type NodeName = string

  /** A task: its unique name and its processing time. */
  datatype Node = Node(name: NodeName, weight: nat)

  /** A precedence constraint; `weight` is paid only across processors. */
  datatype Edge = Edge(src: Node, dst: Node, weight: nat)

  datatype Graph = Graph(nodes: seq<Node>, edges: seq<Edge>)

  /** Run-state of one node; `processor` and `startTime` mean something only when `hasRun`. */
  datatype Run = Run(hasRun: bool, processor: int, startTime: nat)

  type RunState = map<NodeName, Run>

  predicate Ran(rs: RunState, n: Node) {
    n.name in rs && rs[n.name].hasRun
  }

  predicate OnProcessor(rs: RunState, n: Node, p: int) {
    Ran(rs, n) && rs[n.name].processor == p
  }

  /** Finish time of a node that has run: start time plus processing time. */
  function Finish(rs: RunState, n: Node): nat
    requires Ran(rs, n)
  {
    rs[n.name].startTime + n.weight
  }

  /** The edges ending at `n`, in edge-list order. */
  function Incoming(g: Graph, n: Node): (r: seq<Edge>)
    ensures forall e :: e in r <==> e in g.edges && e.dst == n
  {
    Filter(g.edges, (e: Edge) => e.dst == n)
  }

  /** The edges starting at `n`, in edge-list order. */
  function Outgoing(g: Graph, n: Node): (r: seq<Edge>)
    ensures forall e :: e in r <==> e in g.edges && e.src == n
  {
    Filter(g.edges, (e: Edge) => e.src == n)
  }

  predicate UniqueNames(nodes: seq<Node>) {
    forall i, j :: 0 <= i < j < |nodes| ==> nodes[i].name != nodes[j].name
  }

  /** Names are unique and every edge joins two nodes of the graph. */
  predicate WellFormed(g: Graph) {
    && UniqueNames(g.nodes)
    && forall e :: e in g.edges ==> e.src in g.nodes && e.dst in g.nodes
  }

  /** The first node of `nodes` called `name`, if any: node equality is equality of names. */
  function Lookup(nodes: seq<Node>, name: NodeName): (r: Option<Node>)
    ensures r.Some? ==> r.value in nodes && r.value.name == name
    ensures r.None? <==> forall m :: m in nodes ==> m.name != name
  {
    if |nodes| == 0 then None
    else if nodes[0].name == name then Some(nodes[0])
    else Lookup(nodes[1..], name)
  }

  /** With unique names, looking a member up by its name finds that very member. */
  lemma LookupMember(nodes: seq<Node>, x: Node)
    requires UniqueNames(nodes)
    requires x in nodes
    ensures Lookup(nodes, x.name) == Some(x)
  {
    var r := Lookup(nodes, x.name);
    var j :| 0 <= j < |nodes| && nodes[j] == x;
    var i :| 0 <= i < |nodes| && nodes[i] == r.value;
    assert i == j;
  }
}
