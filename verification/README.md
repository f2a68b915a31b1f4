# Parallel branch-and-bound task scheduler — sequential core in Dafny

The scheduler assigns a weighted task DAG to a fixed number of identical
processors. An edge's communication cost is paid only when its two end tasks
run on different processors. The search is branch-and-bound over partial
schedules. This project models the sequential logic around that search:

- **Task graph** (`task_graph.dfy`, module `TaskGraph`). Nodes are `(name, weight)` values
  and edges are `(src, dst, weight)`. The run-state is a map from node name to
  `(hasRun, processor, startTime)`. A name missing from the map is a node that
  has not run. The scheduler's tests store run-state in two ways: in a
  name-keyed table, and as fields on the node objects. One map covers both.
- **Readiness analysis** (`readiness.dfy`, module `Readiness`): root nodes,
  satisfied children of a node, and satisfied nodes of a list. Each is an
  order-preserving filter.
- **Processor allocation** (`processor_allocation.dfy`, module
  `ProcessorAllocation`). The earliest start of a ready node on processor `p`
  is the later of two times: `p`'s current finish time, and the arrival of
  each predecessor's data. That arrival is the predecessor's finish time, plus
  the edge weight when the predecessor ran on another processor. Allocation
  picks an allowed processor (one not in the excluded list) with the least
  earliest start. It records that processor and start time in the run-state,
  or reports `Exhausted` when every processor is excluded.
- **Coordinator** (`coordinator.dfy`, module `Coordinator`). It covers the
  serial initial bound and the best-bound/best-schedule update rule
  (`compareBounds`). It also covers the result queue: workers append to its
  back (`compare`) and the coordinator drains it from the front
  (`checkQueue`).
- **Partitions** (`subpaths.dfy`, module `Subpaths`). These are the search
  states handed to workers (`SubpathTuple`): the initial single-level stack of
  root nodes, and the deep clone. The clone copies the nodes and run-state,
  re-points stack levels and edges at the copied nodes, and rebuilds the
  processor allocator from the nodes that have run.
- **Fixtures** (`readiness_fixture.dfy`, `allocation_fixture.dfy`). These are
  the unit tests' graphs and expected answers, stated as lemmas about the model.

`seqs.dfy` holds `Option` and an order-preserving `Filter` with its lemmas.

The sources of `ProcessorAllocator` and `ValidNodeFinder` are not part of this
model. Their behaviour is taken from their unit tests, whose files carry
unresolved merge-conflict markers. Both sides of each conflict assert the same
numbers. On one side, processor contents are registered with the allocator.
On the other, they are derived from the schedule list. `Subpaths.AllocatorFinishAgrees`
shows the two give the same processor finish times.

## Model

| member | source | states |
|---|---|---|
| Readiness.FindRootNodes | src/test/java/scheduler/ValidNodeFinderTest.java:60-69 | a node is returned iff it is in the input and no edge ends at it |
| Readiness.FindRootNodesAppend | src/test/java/scheduler/ValidNodeFinderTest.java:60-69 | roots keep input order: finding roots distributes over concatenation |
| Readiness.FindSatisfiedChildren | src/test/java/scheduler/ValidNodeFinderTest.java:71-104 | a node is returned iff it is an outgoing neighbour of the argument and all its predecessors have run |
| Readiness.ChildBlockedByUnrunPredecessor | src/test/java/scheduler/ValidNodeFinderTest.java:86-93 | a child with any predecessor not yet run is not returned |
| Readiness.SatisfiedMonotone | src/test/java/scheduler/ValidNodeFinderTest.java:81-103 | running more nodes never un-satisfies a node |
| Readiness.FindSatisfiedNodes | src/test/java/scheduler/ValidNodeFinderTest.java:106-137 | a node is returned iff it is in the input, has not run, and all its predecessors have run |
| Readiness.FindSatisfiedNodesAppend | src/test/java/scheduler/ValidNodeFinderTest.java:106-137 | satisfied nodes keep input order: the query distributes over concatenation |
| Readiness.NothingRunSatisfiedAreRoots | src/test/java/scheduler/ValidNodeFinderTest.java:60-137 | before anything has run, the satisfied nodes are exactly the roots, in the same order |
| ReadinessFixture.FixtureRootNodes | src/test/java/scheduler/ValidNodeFinderTest.java:33-69 | on a, x -> b -> c the roots are [a, x] |
| ReadinessFixture.FixtureChildrenNothingRun | src/test/java/scheduler/ValidNodeFinderTest.java:81-84 | with nothing run, a has no satisfied child |
| ReadinessFixture.FixtureChildrenBlockedByX | src/test/java/scheduler/ValidNodeFinderTest.java:86-93 | with only a run, b is still blocked by x |
| ReadinessFixture.FixtureChildrenAllRun | src/test/java/scheduler/ValidNodeFinderTest.java:95-103 | with a and x run, the satisfied children of a are [b] |
| ReadinessFixture.FixtureSatisfiedNodes | src/test/java/scheduler/ValidNodeFinderTest.java:106-137 | with a and x run, the satisfied nodes are [b] |
| ProcessorAllocation.ProcessorFinish | src/test/java/scheduler/ProcessorAllocatorTest.java:208-216 | a processor's finish time is at least the finish of every scheduled node that ran on it, and is 0 or one of those finishes |
| ProcessorAllocation.MaxArrival | src/test/java/scheduler/ProcessorAllocatorTest.java:218-235 | the result is the least upper bound of the data arrival times over the given edges |
| ProcessorAllocation.EarliestStart | src/test/java/scheduler/ProcessorAllocatorTest.java:198-235 | the earliest start is no earlier than the processor's finish time or any predecessor's arrival (finish, plus edge weight across processors), and equals one of them or 0 |
| ProcessorAllocation.BestFrom | src/test/java/scheduler/ProcessorAllocatorTest.java:143-196 | returns an allowed processor of least cost with that cost, or nothing exactly when every candidate is excluded |
| ProcessorAllocation.AllocateProcessor | src/test/java/scheduler/ProcessorAllocatorTest.java:88-196 | never picks an excluded processor; the recorded start is the chosen processor's earliest start and no allowed processor offers an earlier one; fails exactly when every processor is excluded |
| ProcessorAllocation.AllocationRecordsPlacement | src/test/java/scheduler/ProcessorAllocatorTest.java:116-141 | after allocation the node has run on an allowed processor at its earliest start, and every other node's run-state is unchanged |
| ProcessorAllocation.ProcessorFinishOfOwnNodes | src/test/java/scheduler/ProcessorAllocatorTest.java:75-85 | a processor's finish time over only its own nodes equals that over the whole schedule |
| AllocationFixture.FixtureEarliestStartEmptyProcessor | src/test/java/scheduler/ProcessorAllocatorTest.java:198-206 | c on empty processor 2 starts at 2 (a's finish 1 plus edge 1) |
| AllocationFixture.FixtureEarliestStartSameProcessor | src/test/java/scheduler/ProcessorAllocatorTest.java:208-216 | c on busy processor 1 starts at 3; a on the same processor adds no delay |
| AllocationFixture.FixtureEarliestStartTwoPredecessors | src/test/java/scheduler/ProcessorAllocatorTest.java:218-235 | d on processor 1 with c on processor 2 starts at 6 |
| AllocationFixture.EarliestStartDOnProcessor2 | src/test/java/scheduler/ProcessorAllocatorTest.java:172-196 | d on processor 2, after c there, starts at 5 |
| AllocationFixture.FixtureAllocateExcluded | src/test/java/scheduler/ProcessorAllocatorTest.java:88-141 | with processor 2 excluded, c is placed on processor 1 at 3 |
| AllocationFixture.FixtureAllocateBest | src/test/java/scheduler/ProcessorAllocatorTest.java:143-196 | with both processors allowed, d is placed on processor 2 at 5 rather than processor 1 at 6 |
| Coordinator.Initial | src/main/java/scheduler/MasterScheduler.java:55-58 | the starting bound is the makespan of running every node back to back on one processor; no schedule is recorded and the queue is empty |
| Coordinator.SerialBound | src/main/java/scheduler/MasterScheduler.java:55-58 | the loop's bound is the sum of all node weights |
| Coordinator.SerialScheduleMakespan | src/main/java/scheduler/MasterScheduler.java:55-58 | running the nodes back to back on one processor finishes exactly at the sum of their weights |
| Coordinator.CompareBounds | src/main/java/scheduler/MasterScheduler.java:90-101 | the new bound is the smaller of the two; a strictly smaller report replaces the schedule; a larger one changes nothing; an equal one installs its schedule only when none is recorded |
| Coordinator.Drain | src/main/java/scheduler/MasterScheduler.java:83-101 | after merging a queue the bound never rose and is the least of the starting bound and every reported bound |
| Coordinator.DrainAppend | src/main/java/scheduler/MasterScheduler.java:83-88 | draining a concatenated queue is draining the first part, then the second |
| Coordinator.DrainKeepsRecorded | src/main/java/scheduler/MasterScheduler.java:97-98 | a drain that does not lower the bound never replaces a recorded schedule |
| Coordinator.DrainFirstFound | src/main/java/scheduler/MasterScheduler.java:90-101 | when the bound improves, the recorded schedule is the one from the oldest report achieving the final bound |
| Coordinator.Compare | src/main/java/scheduler/MasterScheduler.java:50-52 | exactly one report is appended at the back of the queue; the best pair is untouched |
| Coordinator.CheckQueue | src/main/java/scheduler/MasterScheduler.java:83-88 | the queue is left empty and the best pair is the front-to-back merge of every queued report |
| Coordinator.CompareThenDrain | src/main/java/scheduler/MasterScheduler.java:50-88 | a report appended by compare is merged after every report already queued |
| Coordinator.DrainFromInitial | src/main/java/scheduler/MasterScheduler.java:54-101 | from the initial state, the final bound is the smaller of the serial bound and the least reported bound |
| Coordinator.CompareBoundsAsWritten | src/main/java/scheduler/MasterScheduler.java:90-107 | the update as written faults in the notification loop exactly on a strictly better report, faults on the schedule size test exactly on an equal report while no schedule is set, and otherwise agrees with CompareBounds |
| Coordinator.AsWrittenNeverRecords | src/main/java/scheduler/MasterScheduler.java:83-107 | as written, a drain that starts with no schedule faults exactly when some report is at least as good as the bound, and otherwise leaves the best pair unchanged, so no schedule is ever recorded |
| Coordinator.AsWrittenCrashesOnFirstImprovement | src/main/java/scheduler/MasterScheduler.java:92-96 | from the initial state, any report better than the serial bound faults as written; the corrected rule records its bound and schedule |
| Coordinator.AsWrittenCrashesOnFirstTie | src/main/java/scheduler/MasterScheduler.java:97 | for a one-node graph, the first report equal to the serial bound faults as written; the corrected rule records it |
| Subpaths.RebuildAllocatorContents | src/main/java/scheduler/MasterScheduler.java:139-144 | each processor of the rebuilt allocator holds exactly the nodes that ran on it, in list order |
| Subpaths.CloneSubpath | src/main/java/scheduler/MasterScheduler.java:109-176 | the clone has the same nodes and run-state. It has one level per original level, holding only nodes of the new list. Every edge end with an equal node in the list is re-pointed at that node |
| Subpaths.CloneLevelFaithful | src/main/java/scheduler/MasterScheduler.java:123-137 | a level whose nodes all have equal nodes in the list is copied node for node |
| Subpaths.CloneFaithful | src/main/java/scheduler/MasterScheduler.java:117-170 | given unique names and stacked nodes in the list, the clone has the same nodes, the same edges and the same stack, level by level |
| Subpaths.CloneAllocatorHoldsRunNodes | src/main/java/scheduler/MasterScheduler.java:139-144 | the cloned allocator holds exactly the nodes with hasRun set, each on its recorded processor |
| Subpaths.AllocatorFinishAgrees | src/test/java/scheduler/ProcessorAllocatorTest.java:75-85 | processor finish time over the allocator's contents equals finish time derived from the node list |
| Subpaths.CloneAllocatesAlike | src/main/java/scheduler/MasterScheduler.java:109-176 | allocating a node on a clone gives the same processor and start time as on the original |
| Subpaths.InitialSubpath | src/main/java/scheduler/MasterScheduler.java:178-197 | the first partition has nothing run, one stack level holding exactly the root nodes, and every processor empty |
| Subpaths.CloneInitialSubpath | src/main/java/scheduler/MasterScheduler.java:178-197 | cloning the first partition of a well-formed graph returns it unchanged |

## Left out

- The worker thread pool, its shutdown and the polling loop in `createSchedule` (MasterScheduler.java:63-78) are concurrency plumbing. The queue (:24-25) is modelled as a sequential sequence only, so thread safety is not modelled.
- The singleton `getInstance` and its static fields (:14-48) are global state. `bestBound` is a field that starts at 0 (:20) and accumulates across calls, so only one `createSchedule` per process is meaningful. The model starts each run from 0.
- `notifyAllSchedulers` (:103-107) has its loop body commented out, so no worker is ever told of a better bound. Its loop header still walks `schedulerList`, which is never assigned (:15, :28-29). `Coordinator.CompareBoundsAsWritten` models the resulting fault (see "## Findings"); the corrected `Coordinator.CompareBounds` notifies nobody.
- Coordinator.Initial: relates its bound to the serial schedule only for node lists with distinct names, because the run-state is keyed by name.
- The subtree-expansion loop of `createSubpathTuples` (:199-239) is left out. Its progress depends on side effects of `allocateProcessor` on checked processors, whose source is unavailable. It also mutates an allocator shared between partitions.
- `createSubpathTuples` reads the field `nodeList` (:181, :196), which `createSchedule` never assigns; it receives its node list as a parameter (:54). The model passes the graph to `InitialSubpath` explicitly.
- The branch-and-bound worker, `ProcessorAllocator`, `ValidNodeFinder`, `Node`, `Edge` and `NodeTuple` are not part of this model. Allocation and readiness follow their unit tests.
- `Node.fullClone` is not part of this model. The clone copies each node and its run-state as they are.
- ProcessorAllocation.EarliestStart: requires every predecessor of the node to have run. The tests call it only on ready nodes and do not fix the result otherwise.
- ProcessorAllocation.AllocateProcessor: states only that the chosen processor has least earliest start. Ties are resolved towards the lowest index, and that is not stated. Symmetry pruning over idle processors is not modelled. Neither behaviour is asserted by any test.
- ProcessorAllocation.AllocateProcessor: the excluded processors come in as a list, as on one side of the merge conflict. The other side keeps them per node in the run-state table; both hold the same data.
- Coordinator.DrainFirstFound: requires every reported schedule to be non-empty. An empty reported schedule counts as "no schedule", so a later equal report may replace it.
- Integers are unbounded. Java `int` overflow of the serial bound sum is not modelled.
- The clone re-points edges by value. In Java the relinking mutates `Edge` objects that may still be shared with the original (:146-170).
- `OutputWriterTest` (file output) and the two interfaces (signatures only) are not modelled.

## Findings

| source | as written | input that shows it | evidently intended | confidence | as-written member | corrected member |
|---|---|---|---|---|---|---|
| src/main/java/scheduler/MasterScheduler.java:97 | `optimalSchedule.size() == 0` is evaluated while `optimalSchedule` is still the null it starts as (:18) | a first report whose bound equals the serial bound, e.g. a one-node graph whose only schedule takes the node's weight (Coordinator.AsWrittenCrashesOnFirstTie) | an equal bound installs the reported schedule when none is recorded yet | not executed; medium (as written, the :104 fault comes first on any better report, so :96 is never reached and no schedule is ever recorded; a worker that prunes at equality would never report a tie) | Coordinator.CompareBoundsAsWritten | Coordinator.CompareBounds |
| src/main/java/scheduler/MasterScheduler.java:104 | `notifyAllSchedulers` iterates over `schedulerList`, which is declared (:15) but never assigned, after `bestBound` is lowered (:92) and before `optimalSchedule` is stored (:96) | any report better than the serial bound (Coordinator.AsWrittenCrashesOnFirstImprovement); draining from the initial state never records a schedule (Coordinator.AsWrittenNeverRecords) | a better report lowers the bound and records its schedule | not executed; high | Coordinator.CompareBoundsAsWritten | Coordinator.CompareBounds |
