/** The coordinator's top level: run's try block (upload, start agents,
    start workers, run the suite, log the failure info), the finally-block
    shutdown, and runTestSuite's post-run sequence. */
module Lifecycle {
  import opened Events
  import opened Oracle
  import opened Setup
  import opened Workers
  import opened Schedulers
  import opened Layouts

  /** The scheduler the parallel flag selects, over the runners in suite order. */
  function Schedule(c: Coordinator, env: Environment): Phase
  {
    if c.params.parallel then RunParallel(env, Runners(c.suite))
    else RunSequential(c, env, Runners(c.suite), 1)
  }

  /** One createProbeResults call per test case, in suite order. */
  function ProbeEvents(n: nat): seq<Event>
  {
    seq(n, i requires 0 <= i < n => ProbeResults(i))
  }

  /** runTestSuite: schedule, then terminate the workers (true), warn when
      the workers do not all report their shutdown, and create the probe
      results of every test case. The suite's events start with the
      scheduler's; it completes iff the scheduler and the graceful
      termination both do. */
  function RunTestSuite(c: Coordinator, env: Environment): (r: Phase)
    ensures |Schedule(c, env).events| < |r.events| || r == Schedule(c, env)
    ensures r.events[..|Schedule(c, env).events|] == Schedule(c, env).events
    ensures r.outcome == Completed <==> Schedule(c, env).outcome == Completed && !env.gracefulTerminateThrows
    ensures r.outcome.Thrown? ==> r.outcome.error in {TestCaseError, WorkerStartError, TerminateError}
    ensures Schedule(c, env).outcome.Thrown? ==> r.outcome == Schedule(c, env).outcome
    ensures Schedule(c, env).outcome == Completed && env.gracefulTerminateThrows ==> r.outcome == Thrown(TerminateError)
  {
    var s := Schedule(c, env);
    if s.outcome.Thrown? then s
    else if env.gracefulTerminateThrows then
      Phase(s.events + [TerminateWorkers(true)], Thrown(TerminateError))
    else
      var warning := if env.workersFinishedInTime then [] else [WarnUnfinishedWorkers];
      Phase(s.events + [TerminateWorkers(true)] + warning + ProbeEvents(|c.suite.testCases|), Completed)
  }

  /** The try block of run, and whether the connector object was created
      (coordinatorConnector != null when the finally block runs). */
  datatype Attempt = Attempt(phase: Phase, connectorCreated: bool)

  /** The set-up steps before the first startWorkers call. */
  function SetupEvents(): seq<Event>
  {
    [UploadFiles, StartAgents, StartConnector, InitTestSuite]
  }

  /** run's try block: upload, start the agents and the connector, init
      the suite, start the workers, run the suite, log the failure info;
      the first step that throws ends it, with its own error. */
  function Body(c: Coordinator, env: Environment): (r: Attempt)
    ensures |r.phase.events| > 0 && r.phase.events[0] == UploadFiles
    ensures r.connectorCreated <==> ConnectorCreated(env)
    ensures r.phase.outcome == Thrown(UploadError) <==> env.uploadThrows
    ensures r.phase.outcome == Thrown(AgentStartError) <==> !env.uploadThrows && env.startAgentsThrows
    ensures r.phase.outcome == Thrown(ConnectorStartError)
      <==> !env.uploadThrows && !env.startAgentsThrows && env.connector != ConnectorOk
    ensures r.phase.outcome == Thrown(InitTestSuiteError)
      <==> !env.uploadThrows && !env.startAgentsThrows && env.connector == ConnectorOk && env.initTestSuiteThrows
    ensures r.phase.outcome == Completed
      <==> StartupSucceeds(env) && RunTestSuite(c, env).outcome == Completed && !env.failureInfoThrows
    ensures StartupSucceeds(env) && RunTestSuite(c, env).outcome.Thrown?
      ==> r.phase.outcome == RunTestSuite(c, env).outcome
    ensures StartupSucceeds(env) && RunTestSuite(c, env).outcome == Completed && env.failureInfoThrows
      ==> r.phase.outcome == Thrown(FailureInfoError)
  {
    if env.uploadThrows then
      Attempt(Phase([UploadFiles], Thrown(UploadError)), false)
    else if env.startAgentsThrows then
      Attempt(Phase([UploadFiles, StartAgents], Thrown(AgentStartError)), false)
    else if env.connector != ConnectorOk then
      Attempt(Phase([UploadFiles, StartAgents, StartConnector], Thrown(ConnectorStartError)),
              env.connector == AddAgentThrows)
    else if env.initTestSuiteThrows then
      Attempt(Phase(SetupEvents(), Thrown(InitTestSuiteError)), true)
    else
      var w := StartWorkers(TotalWorkerCount(c), WorkerFault(env, 0));
      if w.outcome.Thrown? then Attempt(Phase(SetupEvents() + w.events, w.outcome), true)
      else
        var s := RunTestSuite(c, env);
        if s.outcome.Thrown? then Attempt(Phase(SetupEvents() + w.events + s.events, s.outcome), true)
        else
          Attempt(Phase(SetupEvents() + w.events + s.events + [LogFailureInfo],
                        if env.failureInfoThrows then Thrown(FailureInfoError) else Completed),
                  true)
  }

  /** shutdown: the connector is shut down when it exists, then the agents
      are stopped; an exception from the connector's shutdown leaves
      stopAgents unreached. */
  function Shutdown(env: Environment, connectorCreated: bool): (r: Phase)
    ensures ShutdownConnector in r.events <==> connectorCreated
    ensures StopAgents in r.events <==> !(connectorCreated && env.connectorShutdownThrows)
    ensures r.outcome == Completed <==> ShutdownCompletes(env, connectorCreated)
    ensures r.outcome.Thrown? ==> r.outcome.error in {ConnectorShutdownError, StopAgentsError}
    ensures |r.events| > 0 && (r.events[|r.events| - 1] == StopAgents || r.outcome == Thrown(ConnectorShutdownError))
  {
    if connectorCreated && env.connectorShutdownThrows then
      Phase([ShutdownConnector], Thrown(ConnectorShutdownError))
    else
      Phase((if connectorCreated then [ShutdownConnector] else []) + [StopAgents],
            if env.stopAgentsThrows then Thrown(StopAgentsError) else Completed)
  }

  /** run: the try block, then shutdown in the finally block. An exception
      thrown by shutdown replaces the one the try block threw. Every run
      starts with the upload, and it returns normally exactly when
      start-up, the suite, the failure-info log and shutdown all do. */
  function Run(c: Coordinator, env: Environment): (r: Phase)
    ensures |r.events| > 0 && r.events[0] == UploadFiles
    ensures r.outcome == Completed
      <==> && StartupSucceeds(env) && RunTestSuite(c, env).outcome == Completed && !env.failureInfoThrows
           && ShutdownCompletes(env, ConnectorCreated(env))
    ensures StartupSucceeds(env) && RunTestSuite(c, env).outcome.Thrown? && ShutdownCompletes(env, ConnectorCreated(env))
      ==> r.outcome == RunTestSuite(c, env).outcome
  {
    var b := Body(c, env);
    var s := Shutdown(env, b.connectorCreated);
    Phase(b.phase.events + s.events, if s.outcome.Thrown? then s.outcome else b.phase.outcome)
  }

  /** The connector object exists exactly when upload and agent start
      succeeded and its constructor did not throw. */
  predicate ConnectorCreated(env: Environment)
  {
    !env.uploadThrows && !env.startAgentsThrows && env.connector != ConstructorThrows
  }

  /** Every step before the test suite succeeds. */
  predicate StartupSucceeds(env: Environment)
  {
    && !env.uploadThrows
    && !env.startAgentsThrows
    && env.connector == ConnectorOk
    && !env.initTestSuiteThrows
    && WorkerFault(env, 0) == NoFault
  }

  /** shutdown returns normally. */
  predicate ShutdownCompletes(env: Environment, connectorCreated: bool)
  {
    !(connectorCreated && env.connectorShutdownThrows) && !env.stopAgentsThrows
  }

  /** The steps a successful start-up emits, in order. */
  function Prelude(total: nat): seq<Event>
  {
    SetupEvents() + [TerminateWorkers(false), CreateWorkers, WorkersStarted(total)]
  }

  /** The probe events name every test case once, in suite order, and run none. */
  lemma {:induction false} ProbeEventsIndices(n: nat)
    ensures ProbeIndices(ProbeEvents(n)) == UpTo(n)
    ensures RunIndices(ProbeEvents(n)) == []
  {
    if n > 0 {
      ProbeEventsIndices(n - 1);
      assert ProbeEvents(n) == ProbeEvents(n - 1) + [ProbeResults(n - 1)];
      ProbeIndicesAppend(ProbeEvents(n - 1), [ProbeResults(n - 1)]);
      RunIndicesAppend(ProbeEvents(n - 1), [ProbeResults(n - 1)]);
      assert UpTo(n) == UpTo(n - 1) + [n - 1];
    }
  }

  /** Either scheduler emits only runner and worker-start events, the
      latter for the coordinator's worker total. */
  lemma ScheduleEvents(c: Coordinator, env: Environment)
    ensures forall e :: e in Schedule(c, env).events ==> SchedulerEvent(e)
    ensures forall e :: e in Schedule(c, env).events ==> e.WorkersStarted? ==> e.total == TotalWorkerCount(c)
    ensures ProbeIndices(Schedule(c, env).events) == []
    ensures Schedule(c, env).outcome.Thrown? ==> Schedule(c, env).outcome.error in {TestCaseError, WorkerStartError}
  {
    if !c.params.parallel {
      SequentialEvents(c, env, Runners(c.suite), 1);
    }
    ProbeIndicesEmpty(Schedule(c, env).events);
  }

  /** After the scheduler returns normally: terminate-workers(true) comes
      right after the scheduler's events; the worker-shutdown wait only
      decides the warning, never the outcome; probe results are created
      once per test case, in suite order, unless terminating threw. */
  lemma RunTestSuitePostRun(c: Coordinator, env: Environment)
    requires Schedule(c, env).outcome == Completed
    ensures var s := Schedule(c, env).events; var r := RunTestSuite(c, env);
      && |r.events| > |s|
      && r.events[..|s|] == s
      && r.events[|s|] == TerminateWorkers(true)
      && (r.outcome == Completed <==> !env.gracefulTerminateThrows)
      && (WarnUnfinishedWorkers in r.events <==> !env.gracefulTerminateThrows && !env.workersFinishedInTime)
      && ProbeIndices(r.events) == (if env.gracefulTerminateThrows then [] else UpTo(|c.suite.testCases|))
  {
    var s := Schedule(c, env).events;
    var post := PostRunEvents(c, env);
    RunTestSuiteSplit(c, env);
    assert RunTestSuite(c, env).events == s + post;
    ScheduleEvents(c, env);
    assert WarnUnfinishedWorkers !in s;
    PostRunProbes(c, env);
    ProbeIndicesAppend(s, post);
  }

  /** The order of the post-run steps: a failing terminate-workers(true)
      is the last event; otherwise the warning, when the wait failed, comes
      right after it, and the probe results of every test case close the
      trace. */
  lemma PostRunOrder(c: Coordinator, env: Environment)
    requires Schedule(c, env).outcome == Completed
    ensures env.gracefulTerminateThrows
      ==> RunTestSuite(c, env).events == Schedule(c, env).events + [TerminateWorkers(true)]
    ensures !env.gracefulTerminateThrows && !env.workersFinishedInTime
      ==> |RunTestSuite(c, env).events| > |Schedule(c, env).events| + 1
          && RunTestSuite(c, env).events[|Schedule(c, env).events| + 1] == WarnUnfinishedWorkers
    ensures !env.gracefulTerminateThrows
      ==> var k := |Schedule(c, env).events| + (if env.workersFinishedInTime then 1 else 2);
          k <= |RunTestSuite(c, env).events| && RunTestSuite(c, env).events[k..] == ProbeEvents(|c.suite.testCases|)
  {
    var s := Schedule(c, env).events;
    var post := PostRunEvents(c, env);
    RunTestSuiteSplit(c, env);
    assert RunTestSuite(c, env).events == s + post;
    PostRunProbes(c, env);
    if !env.gracefulTerminateThrows {
      var k := if env.workersFinishedInTime then 1 else 2;
      assert (s + post)[|s| + k..] == post[k..];
    }
  }

  /** The post-run sequence: terminate-workers(true) first, the warning
      iff the wait failed, and the probe results of every test case in
      suite order unless terminating threw. */
  lemma PostRunProbes(c: Coordinator, env: Environment)
    ensures PostRunEvents(c, env)[0] == TerminateWorkers(true)
    ensures WarnUnfinishedWorkers in PostRunEvents(c, env) <==> !env.gracefulTerminateThrows && !env.workersFinishedInTime
    ensures ProbeIndices(PostRunEvents(c, env))
      == (if env.gracefulTerminateThrows then [] else UpTo(|c.suite.testCases|))
    ensures env.gracefulTerminateThrows ==> PostRunEvents(c, env) == [TerminateWorkers(true)]
    ensures !env.gracefulTerminateThrows && !env.workersFinishedInTime
      ==> |PostRunEvents(c, env)| > 1 && PostRunEvents(c, env)[1] == WarnUnfinishedWorkers
    ensures !env.gracefulTerminateThrows
      ==> var k := if env.workersFinishedInTime then 1 else 2;
          k <= |PostRunEvents(c, env)| && PostRunEvents(c, env)[k..] == ProbeEvents(|c.suite.testCases|)
  {
    var n := |c.suite.testCases|;
    assert ProbeIndices([TerminateWorkers(true)]) == [];
    if !env.gracefulTerminateThrows {
      var warning := if env.workersFinishedInTime then [] else [WarnUnfinishedWorkers];
      ProbeEventsIndices(n);
      ProbeEventsAreProbes(n);
      assert ProbeIndices(warning) == [];
      ProbeIndicesAppend([TerminateWorkers(true)], warning);
      ProbeIndicesAppend([TerminateWorkers(true)] + warning, ProbeEvents(n));
      assert WarnUnfinishedWorkers !in [TerminateWorkers(true)] + ProbeEvents(n);
    }
  }

  /** When the scheduler throws, nothing of the post-run sequence happens. */
  lemma RunTestSuiteSchedulerThrows(c: Coordinator, env: Environment)
    requires Schedule(c, env).outcome.Thrown?
    ensures RunTestSuite(c, env).outcome == Schedule(c, env).outcome
    ensures TerminateWorkers(true) !in RunTestSuite(c, env).events
    ensures ProbeIndices(RunTestSuite(c, env).events) == []
  {
    ScheduleEvents(c, env);
  }

  /** The events runTestSuite may emit. */
  predicate SuiteEvent(e: Event)
  {
    SchedulerEvent(e) || e == TerminateWorkers(true) || e == WarnUnfinishedWorkers || e.ProbeResults?
  }

  /** The probe events are all ProbeResults events. */
  lemma {:induction false} ProbeEventsAreProbes(n: nat)
    ensures forall e :: e in ProbeEvents(n) ==> e.ProbeResults?
  {
    forall e | e in ProbeEvents(n)
      ensures e.ProbeResults?
    {
      var i :| 0 <= i < n && ProbeEvents(n)[i] == e;
    }
  }

  /** The events that follow a scheduler that returned normally. */
  function PostRunEvents(c: Coordinator, env: Environment): seq<Event>
  {
    if env.gracefulTerminateThrows then [TerminateWorkers(true)]
    else [TerminateWorkers(true)] + (if env.workersFinishedInTime then [] else [WarnUnfinishedWorkers])
         + ProbeEvents(|c.suite.testCases|)
  }

  /** The post-run sequence runs no test. */
  lemma PostRunEventKinds(c: Coordinator, env: Environment)
    ensures forall e :: e in PostRunEvents(c, env) ==>
      e == TerminateWorkers(true) || e == WarnUnfinishedWorkers || e.ProbeResults?
    ensures RunIndices(PostRunEvents(c, env)) == []
  {
    ProbeEventsAreProbes(|c.suite.testCases|);
    RunIndicesEmpty(PostRunEvents(c, env));
  }

  /** runTestSuite's trace is the scheduler's, followed by the post-run
      sequence when the scheduler returned normally. */
  lemma RunTestSuiteSplit(c: Coordinator, env: Environment)
    ensures RunTestSuite(c, env).events
      == Schedule(c, env).events + (if Schedule(c, env).outcome.Thrown? then [] else PostRunEvents(c, env))
  {
  }

  /** runTestSuite emits only suite events, reporting the coordinator's worker total. */
  lemma RunTestSuiteEvents(c: Coordinator, env: Environment)
    ensures forall e :: e in RunTestSuite(c, env).events ==> SuiteEvent(e)
    ensures forall e :: e in RunTestSuite(c, env).events ==> e.WorkersStarted? ==> e.total == TotalWorkerCount(c)
  {
    ScheduleEvents(c, env);
    PostRunEventKinds(c, env);
    RunTestSuiteSplit(c, env);
  }

  /** Only the scheduler part of runTestSuite runs tests. */
  lemma RunTestSuiteRunIndices(c: Coordinator, env: Environment)
    ensures RunIndices(RunTestSuite(c, env).events) == RunIndices(Schedule(c, env).events)
  {
    PostRunEventKinds(c, env);
    RunTestSuiteSplit(c, env);
    var post := if Schedule(c, env).outcome.Thrown? then [] else PostRunEvents(c, env);
    assert RunIndices(post) == [];
    RunIndicesAppend(Schedule(c, env).events, post);
  }

  /** How the trace of run decomposes: the start-up steps, the suite, the
      failure info, then shutdown; a failed start-up emits set-up and
      shutdown steps only. */
  lemma RunTraceShape(c: Coordinator, env: Environment)
    ensures Body(c, env).connectorCreated == ConnectorCreated(env)
    ensures Run(c, env).events == Body(c, env).phase.events + Shutdown(env, ConnectorCreated(env)).events
    ensures StartupSucceeds(env) ==>
      Body(c, env).phase.events
      == Prelude(TotalWorkerCount(c)) + RunTestSuite(c, env).events
         + (if RunTestSuite(c, env).outcome == Completed then [LogFailureInfo] else [])
    ensures !StartupSucceeds(env) ==>
      forall e :: e in Body(c, env).phase.events ==> e in SetupEvents() + [TerminateWorkers(false), CreateWorkers]
    ensures !StartupSucceeds(env) ==> Body(c, env).phase.outcome.Thrown?
  {
  }

  /** run's try block emits no shutdown step. */
  lemma BodyEvents(c: Coordinator, env: Environment)
    ensures ShutdownConnector !in Body(c, env).phase.events
    ensures StopAgents !in Body(c, env).phase.events
    ensures forall e :: e in Body(c, env).phase.events ==> e.WorkersStarted? ==> e.total == TotalWorkerCount(c)
  {
    if StartupSucceeds(env) {
      StartedBodyEvents(c, env);
    } else {
      FailedStartupSteps(c, env);
    }
  }

  /** BodyEvents after a successful start-up: the prelude, the suite and
      the failure-info log hold no shutdown step. */
  lemma StartedBodyEvents(c: Coordinator, env: Environment)
    requires StartupSucceeds(env)
    ensures forall e :: e in Body(c, env).phase.events ==>
              e != ShutdownConnector && e != StopAgents && (e.WorkersStarted? ==> e.total == TotalWorkerCount(c))
  {
    RunTestSuiteEvents(c, env);
    var pre := Prelude(TotalWorkerCount(c));
    var suite := RunTestSuite(c, env).events;
    var tail := if RunTestSuite(c, env).outcome == Completed then [LogFailureInfo] else [];
    assert Body(c, env).phase.events == pre + suite + tail;
    forall e | e in pre + suite + tail
      ensures e != ShutdownConnector && e != StopAgents
      ensures e.WorkersStarted? ==> e.total == TotalWorkerCount(c)
    {
      assert e in pre || e in suite || e in tail;
    }
  }

  /** The connector is shut down exactly when it was created, and the agents
      are stopped exactly when the connector's shutdown did not throw,
      whatever threw before. */
  lemma ShutdownSteps(c: Coordinator, env: Environment)
    ensures ShutdownConnector in Run(c, env).events <==> ConnectorCreated(env)
    ensures StopAgents in Run(c, env).events <==> !(ConnectorCreated(env) && env.connectorShutdownThrows)
  {
    RunTraceShape(c, env);
    BodyEvents(c, env);
  }

  /** Shutdown is the final phase of run: its last step is the last event. */
  lemma ShutdownIsFinal(c: Coordinator, env: Environment)
    ensures var ev := Run(c, env).events;
      && |ev| > 0
      && (ConnectorCreated(env) && env.connectorShutdownThrows ==> ev[|ev| - 1] == ShutdownConnector)
      && (!(ConnectorCreated(env) && env.connectorShutdownThrows) ==> ev[|ev| - 1] == StopAgents)
  {
    RunTraceShape(c, env);
  }

  /** run returns normally only when both its try block and shutdown do;
      an exception of shutdown replaces the try block's. */
  lemma FinallyOutcome(c: Coordinator, env: Environment)
    ensures Run(c, env).outcome == Completed
      <==> Body(c, env).phase.outcome == Completed && ShutdownCompletes(env, ConnectorCreated(env))
    ensures ShutdownCompletes(env, ConnectorCreated(env)) ==> Run(c, env).outcome == Body(c, env).phase.outcome
    ensures !ShutdownCompletes(env, ConnectorCreated(env)) ==> Run(c, env).outcome == Shutdown(env, ConnectorCreated(env)).outcome
  {
    RunTraceShape(c, env);
  }

  /** A start-up failure (upload, agents, connector, test-suite init or the
      first startWorkers) is fatal: no test runs, no workers are reported
      started, no probe results are made and run throws. When only the
      first startWorkers failed and shutdown completes, run throws the
      startup error. */
  lemma StartupFailureIsFatal(c: Coordinator, env: Environment)
    requires !StartupSucceeds(env)
    ensures forall e :: e in Run(c, env).events ==> !e.RunTest? && !e.ProbeResults? && !e.WorkersStarted?
    ensures Run(c, env).outcome.Thrown?
    ensures !env.uploadThrows && !env.startAgentsThrows && env.connector == ConnectorOk && !env.initTestSuiteThrows
            && ShutdownCompletes(env, true)
            ==> Run(c, env).outcome == Thrown(WorkerStartError)
  {
    RunTraceShape(c, env);
  }

  /** A successful start-up runs its steps in order before any test:
      upload, agents, connector, test-suite init, terminate-workers(false),
      create workers, and the report of the coordinator's worker total. */
  lemma StartupRunsInOrder(c: Coordinator, env: Environment)
    requires StartupSucceeds(env)
    ensures |Run(c, env).events| >= 7
    ensures Run(c, env).events[..7] == Prelude(TotalWorkerCount(c))
  {
    RunTraceShape(c, env);
    assert |Prelude(TotalWorkerCount(c))| == 7;
  }

  /** Every worker total reported is the member count plus the client count
      summed over the layouts, which is the number of workers laid out. */
  lemma StartedWorkerTotals(c: Coordinator, env: Environment)
    requires Valid(c)
    ensures forall e :: e in Run(c, env).events && e.WorkersStarted? ==>
      && e.total == SumCount(c.layouts, Member) + SumCount(c.layouts, Client)
      && e.total == WorkerTotal(c.layouts)
  {
    RunTraceShape(c, env);
    BodyEvents(c, env);
    SumCountSplit(c.layouts);
  }

  /** The test cases run in suite order, each at most once, as a prefix of
      the suite; in parallel mode, and in sequential mode without fail-fast,
      runner exceptions or failed restarts, all of them run. */
  lemma TestsRunInSuiteOrder(c: Coordinator, env: Environment)
    ensures var ix := RunIndices(Run(c, env).events);
      && |ix| <= |c.suite.testCases|
      && ix == UpTo(|ix|)
    ensures c.params.parallel && StartupSucceeds(env)
      ==> RunIndices(Run(c, env).events) == UpTo(|c.suite.testCases|)
    ensures && !c.params.parallel && !c.suite.failFast && NoWorkerFaults(env) && StartupSucceeds(env)
            && (forall t :: 0 <= t < |c.suite.testCases| ==> Observe(env, t) != RunnerThrows)
      ==> RunIndices(Run(c, env).events) == UpTo(|c.suite.testCases|)
  {
    var ix := RunIndices(Run(c, env).events);
    RunIndicesOfRun(c, env);
    ScheduleRunsInOrder(c, env);
    if StartupSucceeds(env) {
      assert ix == RunIndices(Schedule(c, env).events);
    } else {
      assert ix == [] == UpTo(0);
    }
  }

  /** TestsRunInSuiteOrder for the scheduler alone. */
  lemma ScheduleRunsInOrder(c: Coordinator, env: Environment)
    ensures var ix := RunIndices(Schedule(c, env).events);
      && |ix| <= |c.suite.testCases|
      && ix == UpTo(|ix|)
    ensures c.params.parallel ==> RunIndices(Schedule(c, env).events) == UpTo(|c.suite.testCases|)
    ensures && !c.params.parallel && !c.suite.failFast && NoWorkerFaults(env)
            && (forall t :: 0 <= t < |c.suite.testCases| ==> Observe(env, t) != RunnerThrows)
      ==> RunIndices(Schedule(c, env).events) == UpTo(|c.suite.testCases|)
  {
    var runners := Runners(c.suite);
    if c.params.parallel {
      ParallelRunsEveryRunner(env, runners);
    } else {
      SequentialRunsPrefix(c, env, runners, 1);
      if !c.suite.failFast && NoWorkerFaults(env)
         && (forall t :: 0 <= t < |c.suite.testCases| ==> Observe(env, t) != RunnerThrows) {
        SequentialRunsAll(c, env, runners, 1);
      }
    }
  }

  /** Only the scheduler runs tests, and only after a successful start-up. */
  lemma RunIndicesOfRun(c: Coordinator, env: Environment)
    ensures RunIndices(Run(c, env).events)
      == if StartupSucceeds(env) then RunIndices(Schedule(c, env).events) else []
  {
    var b := Body(c, env).phase.events;
    var sh := Shutdown(env, Body(c, env).connectorCreated).events;
    assert Run(c, env).events == b + sh;
    ShutdownRunsNothing(env, Body(c, env).connectorCreated);
    RunIndicesAppend(b, sh);
    if StartupSucceeds(env) {
      BodyIndicesAfterStartup(c, env);
    } else {
      BodyIndicesAfterFailedStartup(c, env);
    }
  }

  /** Shutdown runs no test. */
  lemma ShutdownRunsNothing(env: Environment, connectorCreated: bool)
    ensures RunIndices(Shutdown(env, connectorCreated).events) == []
  {
    var sh := Shutdown(env, connectorCreated).events;
    assert forall e :: e in sh ==> e == ShutdownConnector || e == StopAgents;
    RunIndicesEmpty(sh);
  }

  /** After a successful start-up, the tests the try block runs are the scheduler's. */
  lemma BodyIndicesAfterStartup(c: Coordinator, env: Environment)
    requires StartupSucceeds(env)
    ensures RunIndices(Body(c, env).phase.events) == RunIndices(Schedule(c, env).events)
  {
    var pre := Prelude(TotalWorkerCount(c));
    var suite := RunTestSuite(c, env).events;
    var tail := if RunTestSuite(c, env).outcome == Completed then [LogFailureInfo] else [];
    assert Body(c, env).phase.events == pre + suite + tail;
    RunTestSuiteRunIndices(c, env);
    RunIndicesAppend(pre, suite);
    RunIndicesAppend(pre + suite, tail);
    RunIndicesEmpty(pre);
    RunIndicesEmpty(tail);
  }

  /** After a failed start-up, the try block emits only set-up steps and
      the failed startWorkers call's steps. */
  lemma FailedStartupSteps(c: Coordinator, env: Environment)
    requires !StartupSucceeds(env)
    ensures forall e :: e in Body(c, env).phase.events ==>
              e in [UploadFiles, StartAgents, StartConnector, InitTestSuite, TerminateWorkers(false), CreateWorkers]
  {
    var b := Body(c, env).phase.events;
    if env.uploadThrows {
      assert b == [UploadFiles];
    } else if env.startAgentsThrows {
      assert b == [UploadFiles, StartAgents];
    } else if env.connector != ConnectorOk {
      assert b == [UploadFiles, StartAgents, StartConnector];
    } else if env.initTestSuiteThrows {
      assert b == SetupEvents();
    } else {
      var w := StartWorkers(TotalWorkerCount(c), WorkerFault(env, 0));
      assert b == SetupEvents() + w.events;
    }
  }

  /** After a failed start-up, the try block runs no test. */
  lemma BodyIndicesAfterFailedStartup(c: Coordinator, env: Environment)
    requires !StartupSucceeds(env)
    ensures RunIndices(Body(c, env).phase.events) == []
  {
    FailedStartupSteps(c, env);
    RunIndicesEmpty(Body(c, env).phase.events);
  }

  /** Whether the workers report their shutdown in time changes only the
      warning, never how run ends. */
  lemma WorkerShutdownWaitIsWarningOnly(c: Coordinator, env: Environment, finished: bool)
    ensures Run(c, env).outcome == Run(c, env.(workersFinishedInTime := finished)).outcome
  {
    var env' := env.(workersFinishedInTime := finished);
    SequentialReadsOnlyRunOracle(c, env, env', Runners(c.suite), 1);
    assert Schedule(c, env) == Schedule(c, env');
    assert RunTestSuite(c, env).outcome == RunTestSuite(c, env').outcome;
    assert Body(c, env).phase.outcome == Body(c, env').phase.outcome;
    assert Shutdown(env, Body(c, env).connectorCreated) == Shutdown(env', Body(c, env').connectorCreated);
  }

  /** In parallel mode the fail-fast setting changes nothing. */
  lemma ParallelIgnoresFailFast(c: Coordinator, env: Environment, failFast: bool)
    requires c.params.parallel
    ensures Run(c, env) == Run(c.(suite := c.suite.(failFast := failFast)), env)
  {
    var c' := c.(suite := c.suite.(failFast := failFast));
    assert Schedule(c, env) == Schedule(c', env);
    assert RunTestSuite(c, env) == RunTestSuite(c', env);
    assert Body(c, env) == Body(c', env);
  }

  /** In parallel mode the critical-failure flags change nothing: only
      whether a runner throws matters. */
  lemma ParallelIgnoresCriticalFlags(c: Coordinator, env: Environment, observations: seq<TestObservation>)
    requires c.params.parallel
    requires forall t :: Observe(env, t).RunnerThrows? <==> Observe(env.(observations := observations), t).RunnerThrows?
    ensures Run(c, env) == Run(c, env.(observations := observations))
  {
    var env' := env.(observations := observations);
    assert RunParallel(env, Runners(c.suite)) == RunParallel(env', Runners(c.suite));
    assert RunTestSuite(c, env) == RunTestSuite(c, env');
    assert Body(c, env) == Body(c, env');
  }
}
