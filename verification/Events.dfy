/** The abstract events a coordinator run emits, the errors it can end
    with, and the two index projections the lemmas about traces use. */
module Events {

  /** One observable step of the coordinator. Remote operations (SSH
      commands, messages to agents) are kept as opaque events. */
  datatype Event =
    | UploadFiles
    | StartAgents
    | StartConnector
    | InitTestSuite
      /** remoteClient.terminateWorkers(graceful) */
    | TerminateWorkers(graceful: bool)
    | CreateWorkers
      /** the "successfully started a grand total of ... workers" report */
    | WorkersStarted(total: nat)
      /** the runner of the test case at this suite index is run */
    | RunTest(test: nat)
    | WarnUnfinishedWorkers
      /** probe results are created for the test case at this suite index */
    | ProbeResults(test: nat)
    | LogFailureInfo
    | ShutdownConnector
    | StopAgents

  /** What a step throws; the two CommandLineExitException sites are
      ConnectorStartError and WorkerStartError. */
  datatype Error =
    | UploadError
    | AgentStartError
    | ConnectorStartError
    | InitTestSuiteError
    | WorkerStartError
    | TestCaseError
    | TerminateError
    | FailureInfoError
    | ConnectorShutdownError
    | StopAgentsError

  /** Normal completion, or the exception that escaped. */
  datatype Outcome = Completed | Thrown(error: Error)

  /** The events a step emitted and how it ended. */
  datatype Phase = Phase(events: seq<Event>, outcome: Outcome)

  /** The suite indices of the tests whose runner ran, in trace order. */
  function RunIndices(events: seq<Event>): seq<nat>
  {
    if |events| == 0 then []
    else (if events[0].RunTest? then [events[0].test] else []) + RunIndices(events[1..])
  }

  /** The suite indices for which probe results were created, in trace order. */
  function ProbeIndices(events: seq<Event>): seq<nat>
  {
    if |events| == 0 then []
    else (if events[0].ProbeResults? then [events[0].test] else []) + ProbeIndices(events[1..])
  }

  lemma {:induction false} RunIndicesAppend(a: seq<Event>, b: seq<Event>)
    ensures RunIndices(a + b) == RunIndices(a) + RunIndices(b)
  {
    if |a| == 0 {
      assert a + b == b;
    } else {
      assert (a + b)[1..] == a[1..] + b;
      RunIndicesAppend(a[1..], b);
    }
  }

  lemma {:induction false} ProbeIndicesAppend(a: seq<Event>, b: seq<Event>)
    ensures ProbeIndices(a + b) == ProbeIndices(a) + ProbeIndices(b)
  {
    if |a| == 0 {
      assert a + b == b;
    } else {
      assert (a + b)[1..] == a[1..] + b;
      ProbeIndicesAppend(a[1..], b);
    }
  }

  /** A trace without RunTest events projects to no test indices, and back. */
  lemma {:induction false} RunIndicesEmpty(events: seq<Event>)
    ensures RunIndices(events) == [] <==> forall e :: e in events ==> !e.RunTest?
  {
    if |events| > 0 {
      RunIndicesEmpty(events[1..]);
      assert events == [events[0]] + events[1..];
    }
  }

  /** Likewise for ProbeResults events. */
  lemma {:induction false} ProbeIndicesEmpty(events: seq<Event>)
    ensures ProbeIndices(events) == [] <==> forall e :: e in events ==> !e.ProbeResults?
  {
    if |events| > 0 {
      ProbeIndicesEmpty(events[1..]);
      assert events == [events[0]] + events[1..];
    }
  }

  /** The indices 0, 1, ..., n-1 in increasing order. */
  function UpTo(n: nat): (r: seq<nat>)
    ensures |r| == n
    ensures forall i :: 0 <= i < n ==> r[i] == i
  {
    seq(n, i requires 0 <= i => i)
  }
}
