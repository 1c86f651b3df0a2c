/** startWorkers: stale workers are terminated before the configured ones
    are created; any failure there is a startup error. */
module Workers {
  import opened Events
  import opened Oracle

  /** One call of startWorkers for `total` workers, faring as `fault` says.
      The polling loop that waits for a failure to be recorded before the
      exception is raised is abstracted to "then throws". */
  function StartWorkers(total: nat, fault: WorkerStartFault): (r: Phase)
    ensures |r.events| > 0 && r.events[0] == TerminateWorkers(false)
    ensures forall i :: 0 < i < |r.events| ==> r.events[i] != TerminateWorkers(false)
    ensures CreateWorkers in r.events <==> fault != TerminateThrows
    ensures CreateWorkers in r.events ==> r.events[1] == CreateWorkers
    ensures r.outcome == Completed <==> fault == NoFault
    ensures r.outcome.Thrown? ==> r.outcome.error == WorkerStartError
    ensures WorkersStarted(total) in r.events <==> r.outcome == Completed
    ensures r.outcome == Completed ==> r.events[|r.events| - 1] == WorkersStarted(total)
    ensures forall e :: e in r.events ==> e.WorkersStarted? ==> e.total == total
    ensures forall e :: e in r.events ==> e == TerminateWorkers(false) || e == CreateWorkers || e.WorkersStarted?
  {
    match fault
    case TerminateThrows => Phase([TerminateWorkers(false)], Thrown(WorkerStartError))
    case CreateThrows => Phase([TerminateWorkers(false), CreateWorkers], Thrown(WorkerStartError))
    case NoFault => Phase([TerminateWorkers(false), CreateWorkers, WorkersStarted(total)], Completed)
  }
}
