/** The coordinator's configuration: the test suite, the coordinator
    parameters the run-control logic reads, and the worker layout with the
    member and client totals the constructor sums from it. */
module Setup {
  import opened Layouts
  import Events

  /** A Java int. */
  type Int32 = x: int | -0x8000_0000 <= x < 0x8000_0000

  datatype TestCase = TestCase(id: string)

  datatype TestSuite = TestSuite(
    id: string,
    testCases: seq<TestCase>,
    durationSeconds: Int32,
    failFast: bool,
    waitForTestCase: bool)

  /** The coordinator parameters the run-control logic reads. */
  datatype CoordinatorParameters = CoordinatorParameters(parallel: bool, refreshJvm: bool)

  datatype Coordinator = Coordinator(
    suite: TestSuite,
    params: CoordinatorParameters,
    layouts: seq<AgentWorkerLayout>,
    memberWorkerCount: nat,
    clientWorkerCount: nat)

  /** The counts a constructed coordinator holds agree with its layouts. */
  predicate Valid(c: Coordinator)
  {
    && c.memberWorkerCount == SumCount(c.layouts, Member)
    && c.clientWorkerCount == SumCount(c.layouts, Client)
  }

  /** The worker total startWorkers announces. */
  function TotalWorkerCount(c: Coordinator): nat
  {
    c.memberWorkerCount + c.clientWorkerCount
  }

  /** The order in which the test-phase listener container hands out the
      test case runners. That container is not part of this model; it is
      ASSUMED to hold one runner per test case, in suite order. */
  function Runners(suite: TestSuite): seq<nat>
  {
    Events.UpTo(|suite.testCases|)
  }

  /** The constructor: sums the MEMBER and CLIENT counts of every layout. */
  method NewCoordinator(suite: TestSuite, params: CoordinatorParameters, layouts: seq<AgentWorkerLayout>)
    returns (c: Coordinator)
    ensures Valid(c)
    ensures c.suite == suite && c.params == params && c.layouts == layouts
    ensures TotalWorkerCount(c) == WorkerTotal(layouts)
  {
    var memberCount := 0;
    var clientCount := 0;
    var i := 0;
    while i < |layouts|
      invariant 0 <= i <= |layouts|
      invariant memberCount == SumCount(layouts[..i], Member)
      invariant clientCount == SumCount(layouts[..i], Client)
    {
      assert layouts[..i + 1][..i] == layouts[..i];
      memberCount := memberCount + Count(layouts[i], Member);
      clientCount := clientCount + Count(layouts[i], Client);
      i := i + 1;
    }
    assert layouts[..i] == layouts;
    SumCountSplit(layouts);
    c := Coordinator(suite, params, layouts, memberCount, clientCount);
  }
}
