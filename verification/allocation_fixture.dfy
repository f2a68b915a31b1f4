/**
 * The processor-allocation tests' fixture: a -> b (3), a -> c (1), b -> d (1),
 * c -> d (1) with weights a=1, b=2, c=3, d=1 on two processors; a ran on
 * processor 1 at 0 and b on processor 1 at 1.  The lemmas check the model
 * against the start times and processors the tests expect.
 */
module AllocationFixture {
  import opened Seqs
  import opened TaskGraph
  import opened Readiness
  import opened ProcessorAllocation

  const A := Node("a", 1)
  const B := Node("b", 2)
  const C := Node("c", 3)
  const D := Node("d", 1)

  const AB := Edge(A, B, 3)
  const AC := Edge(A, C, 1)
  const BD := Edge(B, D, 1)
  const CD := Edge(C, D, 1)

  const G := Graph([A, B, C, D], [AB, AC, BD, CD])

  /** a and b have run on processor 1. */
  const RS0: RunState := map["a" := Run(true, 1, 0), "b" := Run(true, 1, 1)]

  /** ... and c has run on processor 2 at time 2. */
  const RS1: RunState := RS0["c" := Run(true, 2, 2)]

  lemma IncomingOfC()
    ensures Incoming(G, C) == [AC]
  {
    var p := (e: Edge) => e.dst == C;
    assert Filter([CD], p) == [] by { FilterCons(CD, [], p); }
    assert Filter([BD, CD], p) == [] by { FilterCons(BD, [CD], p); }
    assert Filter([AC, BD, CD], p) == [AC] by { FilterCons(AC, [BD, CD], p); }
    assert Filter([AB, AC, BD, CD], p) == [AC] by { FilterCons(AB, [AC, BD, CD], p); }
  }

  lemma IncomingOfD()
    ensures Incoming(G, D) == [BD, CD]
  {
    var p := (e: Edge) => e.dst == D;
    assert Filter([CD], p) == [CD] by { FilterCons(CD, [], p); }
    assert Filter([BD, CD], p) == [BD, CD] by { FilterCons(BD, [CD], p); }
    assert Filter([AC, BD, CD], p) == [BD, CD] by { FilterCons(AC, [BD, CD], p); }
    assert Filter([AB, AC, BD, CD], p) == [BD, CD] by { FilterCons(AB, [AC, BD, CD], p); }
  }

  lemma SatisfiedC(rs: RunState)
    requires Ran(rs, A)
    ensures Satisfied(G, rs, C)
  {
  }

  lemma SatisfiedD(rs: RunState)
    requires Ran(rs, B) && Ran(rs, C)
    ensures Satisfied(G, rs, D)
  {
  }

  /** c on the empty processor 2 waits for a's data: 1 + 1 = 2. */
  lemma FixtureEarliestStartEmptyProcessor()
    ensures Satisfied(G, RS0, C) && EarliestStart(G, RS0, [A, B], C, 2) == 2
  {
    SatisfiedC(RS0);
    IncomingOfC();
    assert ProcessorFinish(RS0, [A, B], 2) == 0;
  }

  /** c on processor 1 waits for b to finish (3); a on the same processor adds no delay. */
  lemma FixtureEarliestStartSameProcessor()
    ensures Satisfied(G, RS0, C) && EarliestStart(G, RS0, [A, B], C, 1) == 3
  {
    SatisfiedC(RS0);
    IncomingOfC();
    assert ProcessorFinish(RS0, [A, B], 1) == 3;
  }

  /** d on processor 1 waits for c's data from processor 2: 5 + 1 = 6. */
  lemma FixtureEarliestStartTwoPredecessors()
    ensures Satisfied(G, RS1, D) && EarliestStart(G, RS1, [A, B, C], D, 1) == 6
  {
    SatisfiedD(RS1);
    IncomingOfD();
    assert ProcessorFinish(RS1, [A, B, C], 1) == 3;
  }

  /** d on processor 2 follows c there (5); b's data arrives at 3 + 1 = 4. */
  lemma EarliestStartDOnProcessor2()
    ensures Satisfied(G, RS1, D) && EarliestStart(G, RS1, [A, B, C], D, 2) == 5
  {
    SatisfiedD(RS1);
    IncomingOfD();
    assert ProcessorFinish(RS1, [C], 2) == 5;
    assert [A, B, C][1..] == [B, C] && [B, C][1..] == [C];
    assert ProcessorFinish(RS1, [A, B, C], 2) == 5;
  }

  /** With processor 2 excluded, c goes to processor 1 and starts at 3. */
  lemma FixtureAllocateExcluded()
    ensures Satisfied(G, RS0, C)
    ensures AllocateProcessor(G, RS0, [A, B], C, [2], 2)
            == Allocated(RS0["c" := Run(true, 1, 3)], Placement(1, 3))
  {
    FixtureEarliestStartSameProcessor();
    var r := AllocateProcessor(G, RS0, [A, B], C, [2], 2);
    assert !(forall k :: 1 <= k <= 2 ==> k in [2]) by { assert 1 !in [2]; }
    assert r.placement.processor == 1;
  }

  /** With both processors allowed, d goes to processor 2 at 5 rather than processor 1 at 6. */
  lemma FixtureAllocateBest()
    ensures Satisfied(G, RS1, D)
    ensures AllocateProcessor(G, RS1, [A, B, C], D, [], 2)
            == Allocated(RS1["d" := Run(true, 2, 5)], Placement(2, 5))
  {
    FixtureEarliestStartTwoPredecessors();
    EarliestStartDOnProcessor2();
    var r := AllocateProcessor(G, RS1, [A, B, C], D, [], 2);
    assert !(forall k :: 1 <= k <= 2 ==> k in []) by { assert 1 !in []; }
    assert r.placement.processor == 1 || r.placement.processor == 2;
  }
}
