/** runSequential and runParallel over the test case runners. The runner
    sequence is a parameter holding suite indices; the top level passes
    Setup.Runners, the assumed suite order. */
module Schedulers {
  import opened Events
  import opened Oracle
  import opened Setup
  import opened Workers

  /** The events a scheduler may emit. */
  predicate SchedulerEvent(e: Event)
  {
    e.RunTest? || e == TerminateWorkers(false) || e == CreateWorkers || e.WorkersStarted?
  }

  /** What runSequential's loop does with one runner: break out of the
      loop, with the step's events and the scheduler's outcome, or go on
      to the next runner, numbering the next startWorkers call. */
  datatype Step = Stop(events: seq<Event>, outcome: Outcome) | Continue(events: seq<Event>, next: nat)

  /** One iteration of runSequential: run the test, then read its
      critical-failure flag once. With fail-fast a critical failure breaks
      the loop; otherwise the workers are restarted when the flag is set or
      JVM refresh is configured, and a failed restart ends the scheduler
      with the startup error. The runner is the step's only test. */
  function SequentialStep(c: Coordinator, env: Environment, t: nat, call: nat): (s: Step)
    ensures |s.events| > 0 && s.events[0] == RunTest(t)
    ensures forall i :: 0 < i < |s.events| ==> !s.events[i].RunTest?
    ensures forall e :: e in s.events ==> SchedulerEvent(e)
    ensures forall e :: e in s.events ==> e.WorkersStarted? ==> e.total == TotalWorkerCount(c)
    ensures s.Stop? && s.outcome.Thrown? ==> s.outcome.error in {TestCaseError, WorkerStartError}
  {
    match Observe(env, t)
    case RunnerThrows => Stop([RunTest(t)], Thrown(TestCaseError))
    case Finished(critical) =>
      if critical && c.suite.failFast then Stop([RunTest(t)], Completed)
      else if critical || c.params.refreshJvm then
        var w := StartWorkers(TotalWorkerCount(c), WorkerFault(env, call));
        if w.outcome.Thrown? then Stop([RunTest(t)] + w.events, w.outcome)
        else Continue([RunTest(t)] + w.events, call + 1)
      else Continue([RunTest(t)], call)
  }

  /** runSequential from the runner at runners[0] on; `call` numbers the
      next startWorkers call. The trace starts with the first runner, and
      the scheduler can only throw a test case or worker start error. */
  function RunSequential(c: Coordinator, env: Environment, runners: seq<nat>, call: nat): (r: Phase)
    ensures |runners| > 0 <==> |r.events| > 0
    ensures |runners| > 0 ==> r.events[0] == RunTest(runners[0])
    ensures r.outcome.Thrown? ==> r.outcome.error in {TestCaseError, WorkerStartError}
    decreases |runners|
  {
    if |runners| == 0 then Phase([], Completed)
    else
      match SequentialStep(c, env, runners[0], call)
      case Stop(events, outcome) => Phase(events, outcome)
      case Continue(events, next) =>
        var rest := RunSequential(c, env, runners[1..], next);
        Phase(events + rest.events, rest.outcome)
  }

  /** runParallel: every runner is spawned and the spawner waits for all of
      them; the fail-fast check after a runner only logs. The trace lists
      the runners in spawn order. A runner's exception is rethrown by the
      spawner once all runners are done (ThreadSpawner is not part of this
      model; this is its assumed behaviour). */
  function RunParallel(env: Environment, runners: seq<nat>): (r: Phase)
    ensures r.outcome == Completed <==> forall k :: 0 <= k < |runners| ==> Observe(env, runners[k]) != RunnerThrows
    ensures r.outcome.Thrown? ==> r.outcome.error == TestCaseError
    ensures forall e :: e in r.events ==> e.RunTest?
  {
    var events := seq(|runners|, k requires 0 <= k < |runners| => RunTest(runners[k]));
    if exists k :: 0 <= k < |runners| && Observe(env, runners[k]) == RunnerThrows
    then Phase(events, Thrown(TestCaseError))
    else Phase(events, Completed)
  }

  /** Parallel mode runs every runner once, in spawn order, whatever the
      critical failures and the fail-fast setting. */
  lemma {:induction false} ParallelRunsEveryRunner(env: Environment, runners: seq<nat>)
    ensures RunIndices(RunParallel(env, runners).events) == runners
    decreases |runners|
  {
    if |runners| > 0 {
      var events := RunParallel(env, runners).events;
      ParallelRunsEveryRunner(env, runners[1..]);
      assert events[1..] == RunParallel(env, runners[1..]).events;
    }
  }

  /** What a sequential trace is made of: runner events and worker
      (re)starts for the coordinator's total. */
  lemma {:induction false} SequentialEvents(c: Coordinator, env: Environment, runners: seq<nat>, call: nat)
    ensures forall e :: e in RunSequential(c, env, runners, call).events ==> SchedulerEvent(e)
    ensures forall e :: e in RunSequential(c, env, runners, call).events ==> e.WorkersStarted? ==> e.total == TotalWorkerCount(c)
    decreases |runners|
  {
    if |runners| > 0 {
      var s := SequentialStep(c, env, runners[0], call);
      if s.Continue? {
        SequentialEvents(c, env, runners[1..], s.next);
      }
    }
  }

  /** A step runs exactly its own runner. */
  lemma StepRunsOne(c: Coordinator, env: Environment, t: nat, call: nat)
    ensures RunIndices(SequentialStep(c, env, t, call).events) == [t]
  {
    var ev := SequentialStep(c, env, t, call).events;
    assert ev == [RunTest(t)] + ev[1..];
    assert forall e :: e in ev[1..] ==> !e.RunTest?;
    RunIndicesEmpty(ev[1..]);
    RunIndicesAppend([RunTest(t)], ev[1..]);
  }

  /** Sequential mode runs a prefix of the runners, in order, each once; at
      least the first one runs. */
  lemma {:induction false} SequentialRunsPrefix(c: Coordinator, env: Environment, runners: seq<nat>, call: nat)
    ensures |RunIndices(RunSequential(c, env, runners, call).events)| <= |runners|
    ensures RunIndices(RunSequential(c, env, runners, call).events)
         == runners[..|RunIndices(RunSequential(c, env, runners, call).events)|]
    ensures |runners| > 0 ==> |RunIndices(RunSequential(c, env, runners, call).events)| > 0
    decreases |runners|
  {
    if |runners| > 0 {
      var s := SequentialStep(c, env, runners[0], call);
      StepRunsOne(c, env, runners[0], call);
      if s.Continue? {
        var rest := RunSequential(c, env, runners[1..], s.next);
        SequentialRunsPrefix(c, env, runners[1..], s.next);
        RunIndicesAppend(s.events, rest.events);
        PrefixCons(runners, RunIndices(rest.events));
      }
    }
  }

  lemma PrefixCons(runners: seq<nat>, ix: seq<nat>)
    requires |runners| > 0 && |ix| <= |runners| - 1 && ix == runners[1..][..|ix|]
    ensures [runners[0]] + ix == runners[..|ix| + 1]
  {
  }

  /** With fail-fast set, the runner of a test whose critical-failure flag is
      read as true is the last event: no later test runs and the workers
      are not restarted after it; the scheduler returns normally. */
  lemma {:induction false} SequentialFailFastAborts(c: Coordinator, env: Environment, runners: seq<nat>, call: nat, p: nat)
    requires c.suite.failFast
    requires p < |RunSequential(c, env, runners, call).events|
    requires RunSequential(c, env, runners, call).events[p].RunTest?
    requires Observe(env, RunSequential(c, env, runners, call).events[p].test) == Finished(true)
    ensures p == |RunSequential(c, env, runners, call).events| - 1
    ensures RunSequential(c, env, runners, call).outcome == Completed
    decreases |runners|
  {
    var r := RunSequential(c, env, runners, call);
    var s := SequentialStep(c, env, runners[0], call);
    if p == 0 {
      assert s == Stop([RunTest(runners[0])], Completed);
    } else {
      assert p >= |s.events|;
      assert s.Continue?;
      var rest := RunSequential(c, env, runners[1..], s.next);
      assert r.events[p] == rest.events[p - |s.events|];
      SequentialFailFastAborts(c, env, runners[1..], s.next, p - |s.events|);
    }
  }

  /** A runner that throws is the last event: no later test runs, the
      workers are not restarted after it, and the scheduler rethrows the
      test case error. */
  lemma {:induction false} SequentialRunnerThrowsEnds(c: Coordinator, env: Environment, runners: seq<nat>, call: nat, p: nat)
    requires p < |RunSequential(c, env, runners, call).events|
    requires RunSequential(c, env, runners, call).events[p].RunTest?
    requires Observe(env, RunSequential(c, env, runners, call).events[p].test) == RunnerThrows
    ensures p == |RunSequential(c, env, runners, call).events| - 1
    ensures RunSequential(c, env, runners, call).outcome == Thrown(TestCaseError)
    decreases |runners|
  {
    var r := RunSequential(c, env, runners, call);
    var s := SequentialStep(c, env, runners[0], call);
    if p == 0 {
      assert s == Stop([RunTest(runners[0])], Thrown(TestCaseError));
    } else {
      assert p >= |s.events|;
      assert s.Continue?;
      var rest := RunSequential(c, env, runners[1..], s.next);
      assert r.events[p] == rest.events[p - |s.events|];
      SequentialRunnerThrowsEnds(c, env, runners[1..], s.next, p - |s.events|);
    }
  }

  /** Every worker restart either succeeds, its terminate-workers(false)
      followed by create-workers and the worker-total report, or ends the
      scheduler: at most its create-workers follows, no later test runs, and
      the scheduler throws the startup error. */
  lemma {:induction false} SequentialRestartSucceedsOrEnds(c: Coordinator, env: Environment, runners: seq<nat>, call: nat, p: nat)
    requires p < |RunSequential(c, env, runners, call).events|
    requires RunSequential(c, env, runners, call).events[p] == TerminateWorkers(false)
    ensures var r := RunSequential(c, env, runners, call);
      || (p + 2 < |r.events| && r.events[p + 1] == CreateWorkers
          && r.events[p + 2] == WorkersStarted(TotalWorkerCount(c)))
      || (|r.events| <= p + 2 && (p + 1 < |r.events| ==> r.events[p + 1] == CreateWorkers)
          && r.outcome == Thrown(WorkerStartError))
    decreases |runners|
  {
    var r := RunSequential(c, env, runners, call);
    var s := SequentialStep(c, env, runners[0], call);
    assert p >= 1;
    if p < |s.events| {
      RestartInFirstStep(c, env, runners, call, p);
    } else {
      assert s.Continue?;
      var rest := RunSequential(c, env, runners[1..], s.next);
      assert r.events[p] == rest.events[p - |s.events|];
      SequentialRestartSucceedsOrEnds(c, env, runners[1..], s.next, p - |s.events|);
    }
  }

  /** The restart inside the first step either succeeds or ends the run. */
  lemma RestartInFirstStep(c: Coordinator, env: Environment, runners: seq<nat>, call: nat, p: nat)
    requires |runners| > 0
    requires 0 < p < |SequentialStep(c, env, runners[0], call).events|
    requires SequentialStep(c, env, runners[0], call).events[p] == TerminateWorkers(false)
    ensures var r := RunSequential(c, env, runners, call);
      || (p + 2 < |r.events| && r.events[p + 1] == CreateWorkers
          && r.events[p + 2] == WorkersStarted(TotalWorkerCount(c)))
      || (|r.events| <= p + 2 && (p + 1 < |r.events| ==> r.events[p + 1] == CreateWorkers)
          && r.outcome == Thrown(WorkerStartError))
  {
    var r := RunSequential(c, env, runners, call);
    var t := runners[0];
    match WorkerFault(env, call)
    case NoFault =>
      var rest := RunSequential(c, env, runners[1..], call + 1);
      assert r.events
        == [RunTest(t), TerminateWorkers(false), CreateWorkers, WorkersStarted(TotalWorkerCount(c))] + rest.events;
    case TerminateThrows =>
      assert r.events == [RunTest(t), TerminateWorkers(false)];
    case CreateThrows =>
      assert r.events == [RunTest(t), TerminateWorkers(false), CreateWorkers];
  }

  /** A sequential run that throws ends with the step that threw: a test
      case error with the runner that threw, a startup error with the
      failed restart's terminate-workers(false) or create-workers. */
  lemma {:induction false} SequentialThrowEnds(c: Coordinator, env: Environment, runners: seq<nat>, call: nat)
    ensures var r := RunSequential(c, env, runners, call);
      r.outcome == Thrown(TestCaseError)
      ==> |r.events| > 0 && r.events[|r.events| - 1].RunTest?
          && Observe(env, r.events[|r.events| - 1].test) == RunnerThrows
    ensures var r := RunSequential(c, env, runners, call);
      r.outcome == Thrown(WorkerStartError)
      ==> |r.events| > 0
          && (r.events[|r.events| - 1] == TerminateWorkers(false) || r.events[|r.events| - 1] == CreateWorkers)
    decreases |runners|
  {
    if |runners| > 0 {
      var r := RunSequential(c, env, runners, call);
      var s := SequentialStep(c, env, runners[0], call);
      if s.Continue? {
        var rest := RunSequential(c, env, runners[1..], s.next);
        SequentialThrowEnds(c, env, runners[1..], s.next);
        assert r.events == s.events + rest.events;
      } else {
        StopEnds(c, env, runners[0], call);
      }
    }
  }

  /** A step that throws ends with the step that threw. */
  lemma StopEnds(c: Coordinator, env: Environment, t: nat, call: nat)
    requires SequentialStep(c, env, t, call).Stop?
    ensures var s := SequentialStep(c, env, t, call);
      s.outcome == Thrown(TestCaseError)
      ==> s.events == [RunTest(t)] && Observe(env, t) == RunnerThrows
    ensures var s := SequentialStep(c, env, t, call);
      s.outcome == Thrown(WorkerStartError)
      ==> s.events[|s.events| - 1] == TerminateWorkers(false) || s.events[|s.events| - 1] == CreateWorkers
  {
  }

  /** After a test that does not abort the suite, the next event is a
      worker restart (its terminate-workers(false)) exactly when the test's
      critical-failure flag is set or JVM refresh is configured; this holds
      after the last test too. */
  lemma {:induction false} SequentialRestartsAfter(c: Coordinator, env: Environment, runners: seq<nat>, call: nat, p: nat)
    requires p < |RunSequential(c, env, runners, call).events|
    requires RunSequential(c, env, runners, call).events[p].RunTest?
    requires Observe(env, RunSequential(c, env, runners, call).events[p].test).Finished?
    requires !(Observe(env, RunSequential(c, env, runners, call).events[p].test).critical && c.suite.failFast)
    ensures var ev := RunSequential(c, env, runners, call).events;
      (p + 1 < |ev| && ev[p + 1] == TerminateWorkers(false))
      <==> (Observe(env, ev[p].test).critical || c.params.refreshJvm)
    decreases |runners|
  {
    var r := RunSequential(c, env, runners, call);
    var s := SequentialStep(c, env, runners[0], call);
    if p == 0 {
      RestartsAfterFirst(c, env, runners, call);
    } else {
      assert p >= |s.events|;
      assert s.Continue?;
      var rest := RunSequential(c, env, runners[1..], s.next);
      assert r.events[p] == rest.events[p - |s.events|];
      SequentialRestartsAfter(c, env, runners[1..], s.next, p - |s.events|);
    }
  }

  /** The first-runner case of SequentialRestartsAfter. */
  lemma RestartsAfterFirst(c: Coordinator, env: Environment, runners: seq<nat>, call: nat)
    requires |runners| > 0
    requires Observe(env, runners[0]).Finished?
    requires !(Observe(env, runners[0]).critical && c.suite.failFast)
    ensures var ev := RunSequential(c, env, runners, call).events;
      (1 < |ev| && ev[1] == TerminateWorkers(false))
      <==> (Observe(env, runners[0]).critical || c.params.refreshJvm)
  {
    var r := RunSequential(c, env, runners, call);
    var s := SequentialStep(c, env, runners[0], call);
    if Observe(env, runners[0]).critical || c.params.refreshJvm {
      assert s.events[1] == TerminateWorkers(false);
    } else {
      assert s == Continue([RunTest(runners[0])], call);
    }
  }

  /** With fail-fast off, no runner throwing and every worker restart
      succeeding, every runner runs, in order, and the scheduler returns
      normally. */
  lemma {:induction false} SequentialRunsAll(c: Coordinator, env: Environment, runners: seq<nat>, call: nat)
    requires !c.suite.failFast
    requires forall k :: 0 <= k < |runners| ==> Observe(env, runners[k]) != RunnerThrows
    requires NoWorkerFaults(env)
    ensures RunIndices(RunSequential(c, env, runners, call).events) == runners
    ensures RunSequential(c, env, runners, call).outcome == Completed
    decreases |runners|
  {
    if |runners| > 0 {
      var s := SequentialStep(c, env, runners[0], call);
      assert Observe(env, runners[0]) != RunnerThrows;
      assert WorkerFault(env, call) == NoFault;
      assert s.Continue?;
      StepRunsOne(c, env, runners[0], call);
      var rest := RunSequential(c, env, runners[1..], s.next);
      SequentialRunsAll(c, env, runners[1..], s.next);
      RunIndicesAppend(s.events, rest.events);
    }
  }

  /** A sequential run that returns normally without running every runner
      was aborted by fail-fast at the last test it ran. */
  lemma {:induction false} SequentialStopsOnlyOnFailFast(c: Coordinator, env: Environment, runners: seq<nat>, call: nat)
    ensures var r := RunSequential(c, env, runners, call);
      var ix := RunIndices(r.events);
      r.outcome == Completed && |ix| < |runners|
      ==> |ix| > 0 && c.suite.failFast && Observe(env, ix[|ix| - 1]) == Finished(true)
    decreases |runners|
  {
    if |runners| > 0 {
      var s := SequentialStep(c, env, runners[0], call);
      StepRunsOne(c, env, runners[0], call);
      if s.Continue? {
        var rest := RunSequential(c, env, runners[1..], s.next);
        SequentialStopsOnlyOnFailFast(c, env, runners[1..], s.next);
        SequentialRunsPrefix(c, env, runners[1..], s.next);
        RunIndicesAppend(s.events, rest.events);
      }
    }
  }

  /** The sequential scheduler reads nothing of the environment but the
      test observations and the worker start faults. */
  lemma {:induction false} SequentialReadsOnlyRunOracle(c: Coordinator, env: Environment, env': Environment, runners: seq<nat>, call: nat)
    requires env'.observations == env.observations && env'.workerStarts == env.workerStarts
    ensures RunSequential(c, env, runners, call) == RunSequential(c, env', runners, call)
    decreases |runners|
  {
    if |runners| > 0 {
      var s := SequentialStep(c, env, runners[0], call);
      assert s == SequentialStep(c, env', runners[0], call);
      if s.Continue? {
        SequentialReadsOnlyRunOracle(c, env, env', runners[1..], s.next);
      }
    }
  }
}
