# Hazelcast Simulator coordinator: run-control model

This project models the run-control logic of the Hazelcast Simulator
`Coordinator`. This is the process that drives the agents and their worker
JVMs through one test suite. A run uploads files, starts the agents and the
coordinator connector, and initialises the test suite on the agents. It then
terminates stale workers and creates the configured member and client
workers. Next it runs the test case runners, either sequentially or in
parallel. After the scheduler it terminates the workers, waits for their
shutdown and creates the probe results. In its `finally` block it shuts down
the connector and stops the agents.

The remote world is an oracle record (`Oracle.Environment`). It says:

- which remote step throws;
- how each `startWorkers` call fares;
- what each test case runner ends with: it throws, or it returns and the
  critical-failure flag is read once;
- whether the workers report their shutdown in time.

Every step is a pure function. It returns a `Phase`: the abstract events the
step emitted (`Events.Event`) and how the step ended (`Completed` or
`Thrown(error)`). `Lifecycle.Run` is the whole of `run()`. Java's
`try`/`finally` is modelled exactly: in every run whose try block ends,
shutdown follows it, and an exception thrown by shutdown replaces the try
block's exception. A failed worker start can keep the try block from ending
at all (see "Left out").

Modules follow the parts of `Coordinator.java`:

- `Layouts`: the per-agent worker layouts and their per-role counts.
- `Setup`: the test suite, the coordinator parameters, and the constructor's
  count summation.
- `Oracle`: the remote environment.
- `Events`: the events, the errors, and the index projections of a trace.
- `Workers`: `startWorkers`.
- `Schedulers`: `runSequential` and `runParallel`.
- `Lifecycle`: `runTestSuite`, `run` and `shutdown`.
- `Duration`: `logTestSuiteDuration`.

Assumption, not proved: the test-phase listener container hands out one
runner per test case, in suite order (`Setup.Runners`). That container is not
part of this model. The schedulers take the runner sequence as a parameter,
so their lemmas hold for any runner order. The top level passes suite order.

Assumption, not proved: AgentWorkerLayout and the WorkerType enum are not
part of this model. A layout is modelled as the list of the roles of the
workers it places, over exactly two roles, MEMBER and CLIENT
(`Layouts.AgentWorkerLayout`). `getCount(t)` is modelled as the number of
entries with role t. `Layouts.WorkerTotal`, the number of workers laid out,
and the claims about it in `Layouts.SumCountSplit` and
`Setup.NewCoordinator` rest on this shape.

Two behaviours of the code a reader might not expect:

- `startWorkers` does not compare the started worker count with the
  requested one. A start-up error happens when terminating or creating the
  workers throws, or when one of the four `echo` calls in the same try block
  throws (Coordinator.java:251-263): `echo` forwards its message to
  `remoteClient.logOnAllAgents` (Coordinator.java:402). This model leaves
  the echo exceptions out.
- Shutdown does not always stop the agents. If `coordinatorConnector.shutdown()`
  throws, `stopAgents()` is never reached (Coordinator.java:363-370).
  `Lifecycle.ShutdownSteps` states this case as written.

## Model

| member | source | states |
|---|---|---|
| `Setup.NewCoordinator` | simulator/src/main/java/com/hazelcast/simulator/coordinator/Coordinator.java:102-109 | The member count is the sum of every layout's MEMBER count and the client count the sum of its CLIENT count, computed by a loop; their sum is the number of workers laid out. |
| `Layouts.SumCountSplit` | simulator/src/main/java/com/hazelcast/simulator/coordinator/Coordinator.java:248 | Members plus clients over all layouts equals the total number of workers in the layouts, the total startWorkers announces. |
| `Workers.StartWorkers` | simulator/src/main/java/com/hazelcast/simulator/coordinator/Coordinator.java:247-268 | terminate-workers(false) is always the first event and is not repeated; workers are created only after it and only if it did not throw; the call completes iff neither throws, otherwise it throws the startup error and the success report with the worker total is absent. |
| `Schedulers.RunParallel` | simulator/src/main/java/com/hazelcast/simulator/coordinator/Coordinator.java:328-347 | The parallel scheduler returns normally iff no runner throws, throws the test case error otherwise, and emits only runner events. |
| `Schedulers.ParallelRunsEveryRunner` | simulator/src/main/java/com/hazelcast/simulator/coordinator/Coordinator.java:328-347 | Every runner runs exactly once, in spawn order, whatever the critical failures. |
| `Lifecycle.ParallelIgnoresFailFast` | simulator/src/main/java/com/hazelcast/simulator/coordinator/Coordinator.java:336-339 | In parallel mode the whole run is unchanged by the fail-fast setting; the abort is only logged. |
| `Lifecycle.ParallelIgnoresCriticalFlags` | simulator/src/main/java/com/hazelcast/simulator/coordinator/Coordinator.java:334-339 | In parallel mode the whole run is unchanged by the critical-failure flags; only whether a runner throws matters. |
| `Schedulers.SequentialStep` | simulator/src/main/java/com/hazelcast/simulator/coordinator/Coordinator.java:350-360 | One loop iteration emits its runner first and no other test, emits only runner and worker-start events for the coordinator's total, and when it breaks out with an exception that is the test case or startup error. |
| `Schedulers.RunSequential` | simulator/src/main/java/com/hazelcast/simulator/coordinator/Coordinator.java:349-361 | The sequential trace is empty iff there are no runners and otherwise starts with the first runner; the scheduler can only throw a test case error or a worker start error. |
| `Schedulers.SequentialEvents` | simulator/src/main/java/com/hazelcast/simulator/coordinator/Coordinator.java:349-361 | A sequential trace holds only runner events and worker restarts, and every restart reports the coordinator's worker total. |
| `Schedulers.SequentialRunnerThrowsEnds` | simulator/src/main/java/com/hazelcast/simulator/coordinator/Coordinator.java:350-351 | A runner that throws is the scheduler's last event, and the scheduler throws the test case error: no later test runs and no restart follows. |
| `Schedulers.SequentialRestartSucceedsOrEnds` | simulator/src/main/java/com/hazelcast/simulator/coordinator/Coordinator.java:357-359 | Every restart either succeeds, its terminate-workers(false) followed by create-workers and the worker-total report, or ends the scheduler with the startup error, followed at most by its create-workers and by no test. |
| `Schedulers.SequentialThrowEnds` | simulator/src/main/java/com/hazelcast/simulator/coordinator/Coordinator.java:349-361 | A sequential run that throws ends with the step that threw: the throwing runner for a test case error, the failed restart's terminate-workers(false) or create-workers for the startup error. |
| `Schedulers.SequentialRunsPrefix` | simulator/src/main/java/com/hazelcast/simulator/coordinator/Coordinator.java:349-361 | Sequential mode runs a non-empty prefix of the runners, strictly in order, each once. |
| `Schedulers.SequentialFailFastAborts` | simulator/src/main/java/com/hazelcast/simulator/coordinator/Coordinator.java:349-356 | With fail-fast on, a test whose critical flag is true is the last event: no later test runs, no restart follows it, and the scheduler returns normally. |
| `Schedulers.SequentialRestartsAfter` | simulator/src/main/java/com/hazelcast/simulator/coordinator/Coordinator.java:350-360 | After a non-aborting test the next event is a worker restart iff its critical flag is true or JVM refresh is set, including after the last test. |
| `Schedulers.SequentialRunsAll` | simulator/src/main/java/com/hazelcast/simulator/coordinator/Coordinator.java:349-361 | With fail-fast off, no runner throwing and no restart failing, every runner runs in order and the scheduler returns normally. |
| `Schedulers.SequentialStopsOnlyOnFailFast` | simulator/src/main/java/com/hazelcast/simulator/coordinator/Coordinator.java:349-361 | A sequential run that returns normally but skips runners was stopped by fail-fast at the last test it ran. |
| `Schedulers.SequentialReadsOnlyRunOracle` | simulator/src/main/java/com/hazelcast/simulator/coordinator/Coordinator.java:349-361 | The sequential scheduler depends only on the runner outcomes and the restart outcomes, not on the post-run or shutdown environment. |
| `Lifecycle.ScheduleEvents` | simulator/src/main/java/com/hazelcast/simulator/coordinator/Coordinator.java:292-297 | Whichever scheduler the parallel flag selects emits only runner and worker-start events for the coordinator's total, and no probe results. |
| `Lifecycle.RunTestSuite` | simulator/src/main/java/com/hazelcast/simulator/coordinator/Coordinator.java:270-311 | runTestSuite's trace begins with the scheduler's; a scheduler exception is rethrown unchanged; after a normal scheduler return, a failing terminate-workers(true) throws the terminate error; it completes iff the scheduler returns normally and terminating does not throw, and throws only a test case, startup or terminate error. |
| `Lifecycle.RunTestSuitePostRun` | simulator/src/main/java/com/hazelcast/simulator/coordinator/Coordinator.java:299-308 | After a normal scheduler return, terminate-workers(true) follows the scheduler's events; the suite completes iff terminating does not throw; the unfinished-workers warning appears iff the wait failed; probe results are made once per test case in suite order. |
| `Lifecycle.PostRunOrder` | simulator/src/main/java/com/hazelcast/simulator/coordinator/Coordinator.java:299-308 | A failing terminate-workers(true) is the last event of runTestSuite; otherwise the unfinished-workers warning, when the wait failed, comes right after it, and the probe results of every test case, in suite order, close the trace. |
| `Lifecycle.RunTestSuiteSchedulerThrows` | simulator/src/main/java/com/hazelcast/simulator/coordinator/Coordinator.java:292-308 | When the scheduler throws, runTestSuite throws the same error without terminating the workers or making probe results. |
| `Lifecycle.RunTestSuiteEvents` | simulator/src/main/java/com/hazelcast/simulator/coordinator/Coordinator.java:285-308 | runTestSuite emits only scheduler, terminate-workers(true), warning and probe events, and every worker total it reports is the coordinator's. |
| `Lifecycle.WorkerShutdownWaitIsWarningOnly` | simulator/src/main/java/com/hazelcast/simulator/coordinator/Coordinator.java:299-303 | Whether the workers report their shutdown in time never changes how the run ends. |
| `Lifecycle.Body` | simulator/src/main/java/com/hazelcast/simulator/coordinator/Coordinator.java:168-176 | The try block begins with the upload; the connector exists iff upload and agent start succeeded and its constructor did not throw; each set-up error is thrown iff its step is the first to fail; it returns normally iff start-up, runTestSuite and the failure-info log all do; after a successful start-up an exception from runTestSuite leaves it unchanged, and otherwise a failing failure-info log throws its error. |
| `Lifecycle.Shutdown` | simulator/src/main/java/com/hazelcast/simulator/coordinator/Coordinator.java:363-370 | The connector is shut down iff it exists; the agents are stopped iff the connector shutdown did not throw; shutdown completes iff neither throws and throws only those two errors; its last step is stopping the agents unless the connector shutdown threw. |
| `Lifecycle.Run` | simulator/src/main/java/com/hazelcast/simulator/coordinator/Coordinator.java:168-180 | Every run starts with the upload; it returns normally iff start-up, runTestSuite, the failure-info log and shutdown all do; when start-up succeeded and shutdown completes, an exception from runTestSuite leaves run unchanged. |
| `Lifecycle.ShutdownSteps` | simulator/src/main/java/com/hazelcast/simulator/coordinator/Coordinator.java:363-370 | The connector is shut down iff it was created (upload and agent start succeeded and its constructor did not throw); agents are stopped iff the connector's shutdown did not throw, whatever threw before. |
| `Lifecycle.ShutdownIsFinal` | simulator/src/main/java/com/hazelcast/simulator/coordinator/Coordinator.java:168-180 | The last event of every run whose try block ends is the last shutdown step reached: stopping the agents, or the connector shutdown that threw. |
| `Lifecycle.FinallyOutcome` | simulator/src/main/java/com/hazelcast/simulator/coordinator/Coordinator.java:168-180 | run completes iff its try block and shutdown both complete; when shutdown completes, run ends as the try block did. |
| `Lifecycle.StartupFailureIsFatal` | simulator/src/main/java/com/hazelcast/simulator/coordinator/Coordinator.java:168-175 | If upload, agent start, connector start, suite init or the first startWorkers fails, no test runs, no workers are reported started, no probe results are made and the run throws; when shutdown completes, a worker start failure throws the startup error. |
| `Lifecycle.StartupRunsInOrder` | simulator/src/main/java/com/hazelcast/simulator/coordinator/Coordinator.java:168-175 | A successful start-up begins the trace with upload, agents, connector, suite init, terminate-workers(false), create workers and the worker-total report, in that order. |
| `Lifecycle.StartedWorkerTotals` | simulator/src/main/java/com/hazelcast/simulator/coordinator/Coordinator.java:247-258 | Every reported worker total, initial or after a restart, is the summed member count plus the summed client count, the number of workers laid out. |
| `Lifecycle.RunIndicesOfRun` | simulator/src/main/java/com/hazelcast/simulator/coordinator/Coordinator.java:168-175 | Tests run only inside the scheduler, and only after a successful start-up. |
| `Lifecycle.TestsRunInSuiteOrder` | simulator/src/main/java/com/hazelcast/simulator/coordinator/Coordinator.java:285-297 | The tests that run are a prefix of the suite, in suite order, each once. After a successful start-up, parallel mode runs all of them. So does sequential mode after a successful start-up, without fail-fast, runner exceptions or failed restarts. |
| `Duration.SuiteDurationReport` | simulator/src/main/java/com/hazelcast/simulator/coordinator/Coordinator.java:313-326 | A positive per-test duration gives the maximum-time message iff wait-for-test-case is set, else the expected-time message, both carrying the per-test duration; otherwise a message appears iff wait-for-test-case is set. |
| `Duration.Wrap32` | simulator/src/main/java/com/hazelcast/simulator/coordinator/Coordinator.java:317 | Java int arithmetic: a value in the int range is unchanged, and every result is congruent to the exact value modulo 2^32. |
| `Duration.TotalDuration` | simulator/src/main/java/com/hazelcast/simulator/coordinator/Coordinator.java:317 | The total is the per-test duration in parallel mode; in sequential mode it is congruent modulo 2^32 to duration times test count, and equal to it when the product fits in an int. |
| `Duration.TotalDurationMeaning` | simulator/src/main/java/com/hazelcast/simulator/coordinator/Coordinator.java:315-317 | The total the duration message announces is the per-test duration in parallel mode; in sequential mode it is congruent modulo 2^32 to duration times test count, and equal to it when that fits in an int. |
| `Duration.TotalDurationWraps` | simulator/src/main/java/com/hazelcast/simulator/coordinator/Coordinator.java:317 | The sequential total is Java int arithmetic: for two tests of 2^30 seconds without wait-for-test-case, the expected-time message announces -2^31. |

## Left out

- Remote operations (SSH and Bash process control, killing Java processes, agent start and stop commands, file upload, the HarakiriMonitor, cloud credentials) are single opaque events that may throw.
- The per-agent fan-out of starting agents, connecting to them and stopping them is not modelled. Each fan-out is one event.
- The real concurrency of `runParallel` is not modelled. The model states that every runner runs and that the abort is only logged.
- ThreadSpawner is not part of this model. Rethrowing a runner's exception after all runners finish is an assumed behaviour.
- The polling loop that waits for a failure to be recorded before the startup error is thrown (Coordinator.java:260-262) is abstracted to "then throws". If no failure is ever recorded, the loop never ends and shutdown is not reached. The model's shutdown and final-event claims (`Lifecycle.Run`, `Lifecycle.ShutdownSteps`, `Lifecycle.ShutdownIsFinal`, `Lifecycle.StartupFailureIsFatal`) hold only for runs in which the loop ends.
- Logging is left out: message texts, `logConfiguration`, performance info, elapsed-time reports, and the remote echo through `logOnAllAgents`. Exceptions from the echo are not modelled.
- FailureContainer, ComponentRegistry, RemoteClient, CoordinatorUtils (`waitForWorkerShutdown`, `logFailureInfo`, the phase-sync map), TestCaseRunner, TestPhaseListenerContainer and AgentWorkerLayout are not part of this model. Their results enter as oracle inputs, except the layouts, which have the assumed shape described above.
- The phase barriers that the test phase sync map sets up are not modelled, because they live in classes that are not part of this model.
- `createProbeResults` is an event that does not throw, because TestHistogramContainer is not part of this model.
- `main`, CoordinatorCli and `exitWithError` are left out. They are command-line plumbing around `run`.
- The getters and the test-only setter carry no logic and are left out.
- Setup.NewCoordinator: does not model Java int overflow of the summed worker counts, because the counts are bounded by the machines in the cluster.
- AgentClientConfiguration, the AllEntrySetTest workload and LinearHistogramTest are not part of this model. The first only wires channel handlers. The second is a user workload. The third tests a histogram whose source is absent.
