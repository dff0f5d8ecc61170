/** The single-use owner of one capture run (crates/resonance-agent/src/windows.rs, CaptureOwner). */
module Owner {
  import opened Base
  import opened RecoveryTypes

  datatype ErrorKind =
    | KindSourceUnavailable | KindPermissionDenied | KindStreamInterrupted | KindUnsupportedFormat
    | KindInvalidRequest | KindResourceExhausted | KindInternal

  datatype CaptureEnd =
    | StopRequested | DurationElapsed | EndSourceReconfigured | EndSourceUnavailable | EndInterrupted
    | DataDiscontinuity | BoundedHandoffExhausted | EndFailed

  datatype OwnerCompletion =
    | StoppedBeforeStart
    | Finished(end: CaptureEnd)
    | Failed(kind: ErrorKind, hint: RetryHint)
    | StartFailed
    | Panicked

  datatype OwnerStart = Started | StopAlreadyRequested | AlreadyStarted | SpawnFailed

  /** What the worker's completion channel yields within one bounded wait. */
  datatype ChannelOutcome = Received(completion: OwnerCompletion, joinPanics: bool) | TimedOut | Disconnected

  class CaptureOwner {
    var stopRequested: bool
    var startCalled: bool
    var workerRunning: bool
    var completion: Option<OwnerCompletion>

    /** A started owner either still runs its worker or has retained its completion. */
    predicate Valid()
      reads this
    {
      && (workerRunning ==> startCalled && completion.None?)
      && (completion.Some? ==> startCalled)
      && (startCalled && !workerRunning ==> completion.Some?)
    }

    constructor (stopRequested: bool)
      ensures Valid() && !startCalled && this.stopRequested == stopRequested
    {
      this.stopRequested := stopRequested;
      startCalled, workerRunning, completion := false, false, None;
    }

    /** Anything but a running worker leaves a completion that needs no waiting. */
    method Start(spawnFails: bool) returns (r: OwnerStart)
      requires Valid()
      modifies this
      ensures Valid() && startCalled && stopRequested == old(stopRequested)
      ensures r == (if old(startCalled) then AlreadyStarted
                    else if old(stopRequested) then StopAlreadyRequested
                    else if spawnFails then SpawnFailed
                    else Started)
      ensures r.AlreadyStarted? ==> completion == old(completion) && workerRunning == old(workerRunning)
      ensures r.StopAlreadyRequested? ==> completion == Some(StoppedBeforeStart)
      ensures r.SpawnFailed? ==> completion == Some(StartFailed)
      ensures r.Started? ==> workerRunning
    {
      if startCalled {
        return AlreadyStarted;
      }
      startCalled := true;
      if stopRequested {
        completion := Some(StoppedBeforeStart);
        return StopAlreadyRequested;
      }
      if spawnFails {
        completion := Some(StartFailed);
        return SpawnFailed;
      }
      workerRunning := true;
      return Started;
    }

    method RequestStop()
      requires Valid()
      modifies `stopRequested
      ensures stopRequested && Valid()
    {
      stopRequested := true;
    }

    /** A successful wait has joined the worker; a completion once retained never changes. */
    method WaitForCompletion(outcome: ChannelOutcome) returns (r: Option<OwnerCompletion>)
      requires Valid()
      modifies this
      ensures Valid() && startCalled == old(startCalled) && stopRequested == old(stopRequested)
      ensures r == completion
      ensures old(completion).Some? ==> completion == old(completion)
      ensures r.Some? ==> !workerRunning
      ensures r.None? ==> !old(startCalled) || outcome.TimedOut?
      ensures r.None? ==> workerRunning == old(workerRunning)
      ensures old(workerRunning) ==>
                && (r.None? <==> outcome.TimedOut?)
                && (outcome.Received? && !outcome.joinPanics ==> r == Some(outcome.completion))
                && (outcome.Disconnected? || (outcome.Received? && outcome.joinPanics) ==> r == Some(Panicked))
    {
      if completion.None? {
        if !workerRunning {
          return None;
        }
        match outcome {
          case Received(received, joinPanics) =>
            completion := Some(received);
            if joinPanics {
              completion := Some(Panicked);
            }
            workerRunning := false;
          case TimedOut =>
            return None;
          case Disconnected =>
            completion := Some(Panicked);
            workerRunning := false;
        }
      }
      return completion;
    }
  }
}
