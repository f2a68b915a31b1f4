/**
 * The readiness tests' fixture: a, x --> b --> c, with every edge free, and
 * the answers the tests expect, checked against the model.
 */
module ReadinessFixture {
  import opened Seqs
  import opened TaskGraph
  import opened Readiness

  const A := Node("a", 1)
  const B := Node("b", 2)
  const C := Node("c", 3)
  const X := Node("x", 4)

  const G := Graph([A, B, C, X], [Edge(A, B, 0), Edge(B, C, 0), Edge(X, B, 0)])

  const Done := Run(true, 0, 0)

  /** Roots in input order: a and x. */
  lemma FixtureRootNodes()
    ensures FindRootNodes(G, G.nodes) == [A, X]
  {
    var p := (n: Node) => IsRoot(G, n);
    assert Filter([X], p) == [X] by {
      assert p(X);
      FilterCons(X, [], p);
      assert [X] == [X] + [];
    }
    assert Filter([C, X], p) == [X] by {
      assert !p(C) by { assert G.edges[1].dst == C; }
      FilterCons(C, [X], p);
    }
    assert Filter([B, C, X], p) == [X] by {
      assert !p(B) by { assert G.edges[0].dst == B; }
      FilterCons(B, [C, X], p);
    }
    assert Filter([A, B, C, X], p) == [A, X] by {
      assert p(A);
      FilterCons(A, [B, C, X], p);
    }
  }

  /** The only successor of a is b. */
  lemma SuccessorsOfA()
    ensures Targets(Outgoing(G, A)) == [B]
  {
    var p := (e: Edge) => e.src == A;
    var e0, e1, e2 := Edge(A, B, 0), Edge(B, C, 0), Edge(X, B, 0);
    assert Filter([e2], p) == [] by {
      FilterCons(e2, [], p);
    }
    assert Filter([e1, e2], p) == [] by {
      FilterCons(e1, [e2], p);
    }
    assert Filter([e0, e1, e2], p) == [e0] by {
      FilterCons(e0, [e1, e2], p);
    }
  }

  /** The children of a that a run-state satisfies: b exactly when b is satisfied. */
  lemma ChildrenOfA(rs: RunState)
    ensures FindSatisfiedChildren(G, rs, A) == if Satisfied(G, rs, B) then [B] else []
  {
    SuccessorsOfA();
    FilterCons(B, [], (c: Node) => Satisfied(G, rs, c));
  }

  /** With nothing run, a's child b is not yet satisfied. */
  lemma FixtureChildrenNothingRun()
    ensures FindSatisfiedChildren(G, map[], A) == []
  {
    ChildrenOfA(map[]);
    assert G.edges[0].dst == B;
  }

  /** With only a run, b is still blocked by x. */
  lemma FixtureChildrenBlockedByX()
    ensures FindSatisfiedChildren(G, map["a" := Done], A) == []
  {
    ChildrenOfA(map["a" := Done]);
    assert G.edges[2].dst == B && !Ran(map["a" := Done], X);
  }

  /** Once a and x have run, b is returned. */
  lemma FixtureChildrenAllRun()
    ensures FindSatisfiedChildren(G, map["a" := Done, "x" := Done], A) == [B]
  {
    ChildrenOfA(map["a" := Done, "x" := Done]);
  }

  /** With a and x run: b only; a and x have already run and c waits for b. */
  lemma FixtureSatisfiedNodes()
    ensures FindSatisfiedNodes(G, map["a" := Done, "x" := Done], G.nodes) == [B]
  {
    var rs := map["a" := Done, "x" := Done];
    var p := (n: Node) => !Ran(rs, n) && Satisfied(G, rs, n);
    assert Filter([X], p) == [] by {
      assert !p(X);
      FilterCons(X, [], p);
    }
    assert Filter([C, X], p) == [] by {
      assert !p(C) by { assert G.edges[1].dst == C && !Ran(rs, B); }
      FilterCons(C, [X], p);
    }
    assert Filter([B, C, X], p) == [B] by {
      assert p(B);
      FilterCons(B, [C, X], p);
    }
    assert Filter([A, B, C, X], p) == [B] by {
      assert !p(A);
      FilterCons(A, [B, C, X], p);
    }
  }
}
