/** The remote environment seen by the coordinator, as oracle inputs: which
    remote step throws, what each test case's runner ends with, and whether
    the workers report their shutdown in time. */
module Oracle {

  /** How one call of startWorkers fares remotely. */
  datatype WorkerStartFault = NoFault | TerminateThrows | CreateThrows

  /** How startCoordinatorConnector fares: the constructor itself throws
      (no connector exists), or adding an agent to it throws (it exists). */
  datatype ConnectorFault = ConnectorOk | ConstructorThrows | AddAgentThrows

  /** A test case runner either throws, or returns, after which
      failureContainer.hasCriticalFailure() is read once. */
  datatype TestObservation = RunnerThrows | Finished(critical: bool)

  datatype Environment = Environment(
    uploadThrows: bool,
    startAgentsThrows: bool,
    connector: ConnectorFault,
    initTestSuiteThrows: bool,
    /** the k-th call of startWorkers (0 is the initial start) */
    workerStarts: seq<WorkerStartFault>,
    /** per test case, by suite index */
    observations: seq<TestObservation>,
    gracefulTerminateThrows: bool,
    /** CoordinatorUtils.waitForWorkerShutdown's answer */
    workersFinishedInTime: bool,
    failureInfoThrows: bool,
    connectorShutdownThrows: bool,
    stopAgentsThrows: bool)

  /** The fault of the k-th startWorkers call; calls past the listed ones succeed. */
  function WorkerFault(env: Environment, k: nat): WorkerStartFault
  {
    if k < |env.workerStarts| then env.workerStarts[k] else NoFault
  }

  /** The observation of the test at suite index t; unlisted tests finish cleanly. */
  function Observe(env: Environment, t: nat): TestObservation
  {
    if t < |env.observations| then env.observations[t] else Finished(false)
  }

  /** No call of startWorkers fails. */
  predicate NoWorkerFaults(env: Environment)
  {
    forall k :: 0 <= k < |env.workerStarts| ==> env.workerStarts[k] == NoFault
  }
}
