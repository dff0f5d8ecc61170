/** Capture lifecycle supervision with advisory-only recovery (crates/resonance-agent/src/supervisor.rs). */
module Supervisor {
  import opened Base
  import opened Owner
  import opened SupervisorStages
  import C = RecoveryConfig
  import R = Retry
  import T = RetryTransitions

  datatype SupervisorState = Idle | Running | Stopping | Completed

  datatype SupervisorStart = OwnerStarted | StoppedFirst

  datatype StartError = NotIdle(state: SupervisorState) | Construction | OwnerError(start: OwnerStart)

  datatype WaitError = NotStarted | Timeout

  class CaptureSupervisor {
    const configuration: C.ConfigurationSnapshot
    const retry: R.RetryState
    var hasCallback: bool
    var observation: Observation
    var owner: CaptureOwner?
    var state: SupervisorState
    var resourcesReleased: bool
    var completion: Option<Completion>
    var decision: Option<RecoveryTypes.RecoveryDecision>
    var factoryCalls: nat

    ghost function Objects(): set<object>
      reads this
    {
      if owner == null then {this, retry} else {this, retry, owner}
    }

    /** Everything that is true of the supervisor between calls. */
    ghost predicate Valid()
      reads Objects()
    {
      && retry.capacity == RETRY_HISTORY_CAPACITY && NeverRetries(configuration)
      && (state.Completed? <==> completion.Some? && resourcesReleased)
      && (completion.Some? <==> resourcesReleased)
      && (decision.Some? <==> state.Completed? && factoryCalls == 1)
      && factoryCalls == (if retry.Facts() == T.INITIAL_FACTS then 0 else 1)
      && (state.Idle? ==> hasCallback && owner == null)
      && (state.Running? || state.Stopping? ==>
            && owner != null && owner.Valid() && owner.startCalled && owner.workerRunning
            && AttemptOpen(retry.Facts(), configuration.identity)
            && (state.Stopping? ==> !retry.Facts().desiredRunning)
            && (state.Running? ==> retry.Facts().desiredRunning))
      && (state.Completed? ==>
            if factoryCalls == 0 then completion == Some(OwnerCompleted(StoppedBeforeStart))
            else RecordsEnd(retry.Facts(), configuration.identity, completion.value) && decision == Some(Advice(retry.Facts())))
      && (state.Idle? ==> retry.Facts() == T.INITIAL_FACTS)
    }

    /** The program passes the configuration that disables recovery (`ShippedRetriesNothing`). */
    constructor (configuration: C.ConfigurationSnapshot)
      requires NeverRetries(configuration)
      ensures Valid() && fresh(Objects())
      ensures state == Idle && completion == None && decision == None && factoryCalls == 0
      ensures this.configuration == configuration
    {
      this.configuration := configuration;
      retry := new R.RetryState(RETRY_HISTORY_CAPACITY);
      hasCallback := true;
      observation := Observation(false, None, None);
      owner := null;
      state := Idle;
      resourcesReleased := false;
      completion := None;
      decision := None;
      factoryCalls := 0;
    }

    /** The consumer callback runs on the owner's worker, at any time while it lives. */
    method Deliver(event: StreamEvent)
      modifies `observation
      ensures observation == old(observation).After(event)
    {
      observation := observation.After(event);
    }

    method DeliverAll(events: seq<StreamEvent>)
      modifies `observation
      ensures observation == Observed(old(observation), events)
    {
      for i := 0 to |events|
        invariant Observed(old(observation), events) == Observed(observation, events[i..])
      {
        assert events[i..][1..] == events[i + 1..];
        Deliver(events[i]);
      }
    }

    /** The one attempt has an owner that was started, and its outcome is not recorded yet. */
    ghost predicate Awaiting()
      reads Objects()
    {
      && retry.capacity == RETRY_HISTORY_CAPACITY && NeverRetries(configuration)
      && completion.None? && !resourcesReleased && decision.None? && factoryCalls == 1
      && owner != null && owner.Valid() && owner.startCalled
      && AttemptOpen(retry.Facts(), configuration.identity)
    }

    /** With its end recorded and advised on, a supervisor is done. */
    lemma EndedIsValid()
      requires retry.capacity == RETRY_HISTORY_CAPACITY && NeverRetries(configuration)
      requires factoryCalls == 1 && state.Completed? && completion.Some? && resourcesReleased
      requires RecordsEnd(retry.Facts(), configuration.identity, completion.value) && decision == Some(Advice(retry.Facts()))
      ensures Valid()
    {
    }

    /** Records how the one attempt ended. */
    method Conclude(ended: OwnerCompletion)
      requires retry.capacity == RETRY_HISTORY_CAPACITY && NeverRetries(configuration)
      requires factoryCalls == 1 && AttemptOpen(retry.Facts(), configuration.identity)
      modifies retry, `completion, `resourcesReleased, `state, `decision
      ensures state.Completed? && completion == Some(OwnerCompleted(ended)) && resourcesReleased
      ensures RecordsOutcome(retry.Facts(), configuration.identity, OwnerCompleted(ended), observation)
      ensures decision == Some(Advice(retry.Facts()))
      ensures retry.Facts().desiredRunning == old(retry.Facts().desiredRunning)
    {
      completion := Some(OwnerCompleted(ended));
      resourcesReleased := true;
      state := Completed;
      RecordAttemptCompletion(OwnerCompleted(ended));
      RecordRecoveryEvaluation();
    }

    /** What the worker's channel yields is the end, unless joining the worker shows that it panicked. */
    predicate IsEndOf(outcome: ChannelOutcome, ended: Option<Completion>) {
      && (ended.None? <==> outcome.TimedOut?)
      && (outcome.Received? && !outcome.joinPanics ==> ended == Some(OwnerCompleted(outcome.completion)))
      && (outcome.Disconnected? || (outcome.Received? && outcome.joinPanics) ==> ended == Some(OwnerCompleted(Panicked)))
    }

    /** Waits for joined completion; once it is recorded the supervisor is done. */
    method RecordOwnerCompletion(outcome: ChannelOutcome, events: seq<StreamEvent>) returns (r: Option<Completion>)
      requires completion.None? ==> Awaiting()
      requires completion.Some? ==> Valid()
      modifies Objects()
      ensures owner == old(owner) && factoryCalls == old(factoryCalls)
      ensures owner != null ==> owner.stopRequested == old(if owner == null then false else owner.stopRequested)
      ensures retry.Facts().desiredRunning == old(retry.Facts().desiredRunning)
      ensures r == completion
      ensures old(completion).Some? ==>
                && Valid() && completion == old(completion) && state == old(state) && decision == old(decision)
                && retry.Facts() == old(retry.Facts())
      ensures old(completion).None? && r.Some? ==>
                && Valid() && state.Completed?
                && RecordsOutcome(retry.Facts(), configuration.identity, r.value, observation)
      ensures old(completion).None? && r.None? ==>
                && Awaiting() && state == old(state) && retry.Facts() == old(retry.Facts()) && outcome.TimedOut?
                && owner.workerRunning == old(owner.workerRunning)
      ensures observation == if old(completion).None? then Observed(old(observation), events) else old(observation)
      ensures old(completion).None? && old(owner.workerRunning) ==> IsEndOf(outcome, r)
      ensures old(completion).None? && old(owner.completion).Some? ==>
                r == Some(OwnerCompleted(old(owner.completion).value))
      ensures old(completion).None? && r.Some? ==>
                owner.completion.Some? && r == Some(OwnerCompleted(owner.completion.value))
    {
      if completion.None? {
        DeliverAll(events);
        var ended := owner.WaitForCompletion(outcome);
        if ended.None? {
          return None;
        }
        Conclude(ended.value);
        EndedIsValid();
      }
      return completion;
    }

    /** Commits one attempt, then creates and starts this supervisor's only owner. */
    method Start(factoryFails: bool, preStopped: bool, spawnFails: bool, events: seq<StreamEvent>)
      returns (r: Result<SupervisorStart, StartError>)
      requires Valid()
      modifies Objects()
      ensures Valid() && fresh(Objects() - old(Objects()))
      ensures !old(state).Idle? ==>
                r == Err(NotIdle(old(state))) && state == old(state) && completion == old(completion)
                && factoryCalls == old(factoryCalls) && owner == old(owner) && decision == old(decision)
                && retry.Facts() == old(retry.Facts()) && observation == old(observation)
      ensures old(state).Idle? ==>
                && factoryCalls == old(factoryCalls) + 1 == 1
                && r == (if factoryFails then Err(Construction)
                         else if preStopped then Ok(StoppedFirst)
                         else if spawnFails then Err(OwnerError(SpawnFailed))
                         else Ok(OwnerStarted))
                && (r == Ok(OwnerStarted) ==>
                      state.Running? && !owner.stopRequested && observation == Observed(old(observation), events))
                && (r != Ok(OwnerStarted) ==> state.Completed? && decision.Some?)
                && (factoryFails ==> completion == Some(ConstructionFailed))
                && (!factoryFails && preStopped ==> completion == Some(OwnerCompleted(StoppedBeforeStart)))
                && (!factoryFails && !preStopped && spawnFails ==> completion == Some(OwnerCompleted(StartFailed)))
                && (state.Completed? ==>
                      && RecordsEnd(retry.Facts(), configuration.identity, completion.value)
                      && decision == Some(Advice(retry.Facts())))
    {
      if !state.Idle? {
        return Err(NotIdle(state));
      }
      var attemptId := CommitAttempt();
      assert hasCallback;
      hasCallback := false;
      factoryCalls := factoryCalls + 1;
      if factoryFails {
        FailConstruction(attemptId);
        return Err(Construction);
      }
      r := StartOwner(attemptId, preStopped, spawnFails, events);
    }

    /** The owner of the committed attempt is created and started; without a worker it has ended at once. */
    method StartOwner(attemptId: T.AttemptId, preStopped: bool, spawnFails: bool, events: seq<StreamEvent>)
      returns (r: Result<SupervisorStart, StartError>)
      requires AttemptCommitted(retry.Facts(), configuration.identity) && IsAttempt(retry.Facts(), attemptId)
      requires retry.capacity == RETRY_HISTORY_CAPACITY && NeverRetries(configuration)
      requires factoryCalls == 1 && owner == null && state.Idle? && decision.None?
      requires completion.None? && !resourcesReleased
      modifies this, retry
      ensures Valid() && owner != null && fresh(owner) && factoryCalls == 1
      ensures r == (if preStopped then Ok(StoppedFirst)
                    else if spawnFails then Err(OwnerError(SpawnFailed))
                    else Ok(OwnerStarted))
      ensures r == Ok(OwnerStarted) ==>
                state.Running? && !owner.stopRequested && observation == Observed(old(observation), events)
      ensures r != Ok(OwnerStarted) ==>
                && state.Completed?
                && completion == Some(OwnerCompleted(if preStopped then StoppedBeforeStart else StartFailed))
    {
      RecordOwnerCreated(attemptId);
      owner := new CaptureOwner(preStopped);
      var start := owner.Start(spawnFails);
      match start
      case Started =>
        state := Running;
        DeliverAll(events);
        return Ok(OwnerStarted);
      case StopAlreadyRequested =>
        var completed := RecordOwnerCompletion(TimedOut, events);
        assert completed.Some?;
        return Ok(StoppedFirst);
      case SpawnFailed =>
        var completed := RecordOwnerCompletion(TimedOut, events);
        assert completed.Some?;
        return Err(OwnerError(start));
    }

    method CommitAttempt() returns (attemptId: T.AttemptId)
      requires retry.Facts() == T.INITIAL_FACTS
      modifies retry
      ensures AttemptCommitted(retry.Facts(), configuration.identity) && retry.Facts().currentAttempt.value.id == attemptId
    {
      FirstCommit(configuration.identity);
      var generation := retry.ExplicitStart(configuration.identity);
      assert generation.Ok?;
      var attempt := retry.CommitInitialAttempt(generation.value);
      assert attempt.Ok?;
      return attempt.value;
    }

    method RecordOwnerCreated(attemptId: T.AttemptId)
      requires AttemptCommitted(retry.Facts(), configuration.identity) && retry.Facts().currentAttempt.value.id == attemptId
      modifies retry
      ensures AttemptOpen(retry.Facts(), configuration.identity) && retry.Facts().desiredRunning
    {
      var created := retry.RecordOwnerCreated(attemptId);
      assert created.Ok?;
    }

    /** Observes natural owner completion without changing running intent. */
    method WaitForCompletion(outcome: ChannelOutcome, events: seq<StreamEvent>) returns (r: Result<Completion, WaitError>)
      requires Valid()
      modifies Objects()
      ensures Valid() && owner == old(owner) && factoryCalls == old(factoryCalls)
      ensures old(state).Idle? ==> r == Err(NotStarted) && state.Idle?
      ensures r.Ok? <==> state.Completed?
      ensures r.Ok? ==> completion == Some(r.value)
      ensures !old(state).Idle? && r.Err? ==>
                r == Err(Timeout) && outcome.TimedOut? && state == old(state) && retry.Facts() == old(retry.Facts())
      ensures old(completion).Some? ==>
                completion == old(completion) && decision == old(decision) && retry.Facts() == old(retry.Facts())
      ensures old(state).Running? || old(state).Stopping? ==>
                && IsEndOf(outcome, completion) && observation == Observed(old(observation), events)
                && (r.Ok? ==> RecordsOutcome(retry.Facts(), configuration.identity, r.value, observation))
      ensures state.Completed? && factoryCalls == 1 ==>
                && RecordsEnd(retry.Facts(), configuration.identity, completion.value)
                && decision == Some(Advice(retry.Facts()))
    {
      if state.Idle? {
        return Err(NotStarted);
      }
      var ended := RecordOwnerCompletion(outcome, events);
      if ended.None? {
        return Err(Timeout);
      }
      return Ok(ended.value);
    }

    /** Disables recovery intent, requests owner stop and waits; repeating it keeps the outcome. */
    method Stop(outcome: ChannelOutcome, events: seq<StreamEvent>) returns (r: Option<Completion>)
      requires Valid()
      modifies Objects()
      ensures Valid() && owner == old(owner) && factoryCalls == old(factoryCalls)
      ensures !retry.Facts().desiredRunning
      ensures r == completion && (r.Some? <==> state.Completed?)
      ensures r.None? ==> state.Stopping? && outcome.TimedOut?
      ensures old(state).Idle? ==> completion == Some(OwnerCompleted(StoppedBeforeStart)) && factoryCalls == 0
      ensures old(state).Running? || old(state).Stopping? ==>
                && owner.stopRequested && IsEndOf(outcome, r) && observation == Observed(old(observation), events)
                && (r.Some? ==> RecordsOutcome(retry.Facts(), configuration.identity, r.value, observation))
      ensures state.Completed? && factoryCalls == 1 ==>
                && RecordsEnd(retry.Facts(), configuration.identity, completion.value)
                && decision == Some(Advice(retry.Facts()))
      ensures old(completion).Some? ==> completion == old(completion)
    {
      DisableRecoveryIntent();
      match state {
        case Idle =>
          resourcesReleased := true;
          completion := Some(OwnerCompleted(StoppedBeforeStart));
          state := Completed;
        case Running =>
          r := StopOwner(outcome, events);
          return;
        case Stopping =>
          r := StopOwner(outcome, events);
          return;
        case Completed =>
          RecordRecoveryEvaluation();
          if factoryCalls == 1 {
            EndedIsValid();
          }
      }
      return completion;
    }

    method StopOwner(outcome: ChannelOutcome, events: seq<StreamEvent>) returns (r: Option<Completion>)
      requires Awaiting() && owner.workerRunning && !retry.Facts().desiredRunning
      modifies Objects()
      ensures Valid() && owner == old(owner) && owner.stopRequested && factoryCalls == old(factoryCalls)
      ensures !retry.Facts().desiredRunning
      ensures r == completion && (r.Some? <==> state.Completed?)
      ensures r.None? ==> state.Stopping? && outcome.TimedOut?
      ensures r.Some? ==> RecordsOutcome(retry.Facts(), configuration.identity, r.value, observation)
      ensures IsEndOf(outcome, r) && observation == Observed(old(observation), events)
    {
      state := Stopping;
      owner.RequestStop();
      r := RecordOwnerCompletion(outcome, events);
    }

    /** Stopping an intent that runs always succeeds and keeps the stage of its attempt. */
    method DisableRecoveryIntent()
      requires retry.Facts() == T.INITIAL_FACTS || AttemptOpen(retry.Facts(), configuration.identity) || AttemptClosed(retry.Facts(), configuration.identity)
      modifies retry
      ensures !retry.Facts().desiredRunning
      ensures old(retry.Facts()) == T.INITIAL_FACTS ==> retry.Facts() == T.INITIAL_FACTS
      ensures old(AttemptOpen(retry.Facts(), configuration.identity)) ==> AttemptOpen(retry.Facts(), configuration.identity)
      ensures old(AttemptClosed(retry.Facts(), configuration.identity)) ==> AttemptClosed(retry.Facts(), configuration.identity)
      ensures retry.Facts().currentAttempt == old(retry.Facts().currentAttempt)
    {
      if retry.generation.None? {
        return;
      }
      if retry.desiredRunning {
        StoppingKeeps(retry.Facts(), configuration.identity);
        var stopped := retry.ExplicitStop(retry.generation.value);
        assert stopped.Ok?;
      }
    }

    /** Construction failure and the release that follows it belong to the committed attempt. */
    method FailConstruction(attemptId: T.AttemptId)
      requires AttemptCommitted(retry.Facts(), configuration.identity) && IsAttempt(retry.Facts(), attemptId)
      requires retry.capacity == RETRY_HISTORY_CAPACITY && NeverRetries(configuration)
      requires factoryCalls == 1 && owner == null && state.Idle? && decision.None?
      modifies this, retry
      ensures Valid() && owner == null && factoryCalls == 1
      ensures state.Completed? && completion == Some(ConstructionFailed) && decision.Some?
    {
      RecordConstructionFailure(attemptId);
      resourcesReleased := true;
      completion := Some(ConstructionFailed);
      state := Completed;
      RecordRecoveryEvaluation();
      EndedIsValid();
    }

    method RecordConstructionFailure(attemptId: T.AttemptId)
      requires AttemptCommitted(retry.Facts(), configuration.identity) && IsAttempt(retry.Facts(), attemptId)
      requires retry.capacity == RETRY_HISTORY_CAPACITY
      modifies retry
      ensures RecordsEnd(retry.Facts(), configuration.identity, ConstructionFailed)
    {
      ConstructionFails(retry.Facts(), configuration.identity);
      var failed := retry.RecordFailure(attemptId, T.OwnerConstructionFailure);
      assert failed.Ok?;
      var released := retry.RecordCleanupComplete(attemptId);
      assert released.Ok?;
    }

    /** Records the facts of the ended attempt, in the order the owner established them. */
    method RecordAttemptCompletion(ended: Completion)
      requires AttemptOpen(retry.Facts(), configuration.identity) && retry.capacity == RETRY_HISTORY_CAPACITY
      modifies retry
      ensures RecordsOutcome(retry.Facts(), configuration.identity, ended, observation)
      ensures retry.Facts().desiredRunning == old(retry.Facts().desiredRunning)
    {
      var attemptId := retry.currentAttempt.value.id;
      RecordStart(attemptId);
      EveryEndFits(ended);
      RecordOutcome(attemptId, RetryFailureFor(ended));
      RecordTerminalEvent(attemptId);
      RecordRelease(attemptId);
    }

    method RecordStart(attemptId: T.AttemptId)
      requires AttemptOpen(retry.Facts(), configuration.identity) && IsAttempt(retry.Facts(), attemptId)
      modifies retry
      ensures AttemptLive(retry.Facts(), configuration.identity) && IsAttempt(retry.Facts(), attemptId)
      ensures retry.Facts().desiredRunning == old(retry.Facts().desiredRunning)
      ensures retry.Facts().revision <= (if retry.Facts().desiredRunning then 4 else 5)
      ensures retry.Facts().currentAttempt.value.streamStarted == observation.started
    {
      if observation.started {
        StreamStarts(retry.Facts(), configuration.identity);
        var started := retry.RecordStreamStarted(attemptId);
        assert started.Ok?;
      }
    }

    method RecordOutcome(attemptId: T.AttemptId, cause: Option<T.FailureCause>)
      requires AttemptLive(retry.Facts(), configuration.identity) && IsAttempt(retry.Facts(), attemptId)
      requires retry.capacity == RETRY_HISTORY_CAPACITY
      modifies retry
      ensures AttemptEnded(retry.Facts(), configuration.identity) && GoesOn(old(retry.Facts()), retry.Facts())
      ensures retry.Facts().currentAttempt.value.failure == cause
      ensures retry.Facts().currentAttempt.value.streamStarted == old(retry.Facts().currentAttempt.value.streamStarted)
      ensures !retry.Facts().currentAttempt.value.terminalEventDelivered
    {
      if cause.Some? {
        FailureEnds(retry.Facts(), configuration.identity, cause.value);
        var failed := retry.RecordFailure(attemptId, cause.value);
        assert failed.Ok?;
      } else {
        CompletionEnds(retry.Facts(), configuration.identity);
        var completed := retry.RecordNormalCompletion(attemptId);
        assert completed.Ok?;
      }
    }

    /** A terminal event counts for a stream that started. */
    method RecordTerminalEvent(attemptId: T.AttemptId)
      requires AttemptEnded(retry.Facts(), configuration.identity) && IsAttempt(retry.Facts(), attemptId)
      requires retry.Facts().revision <= (if retry.Facts().desiredRunning then 5 else 6)
      requires retry.Facts().currentAttempt.value.streamStarted == observation.started
      requires !retry.Facts().currentAttempt.value.terminalEventDelivered
      modifies retry
      ensures AttemptEnded(retry.Facts(), configuration.identity) && IsAttempt(retry.Facts(), attemptId)
      ensures retry.Facts().desiredRunning == old(retry.Facts().desiredRunning)
      ensures retry.Facts().revision <= (if retry.Facts().desiredRunning then 6 else 7)
      ensures retry.Facts().currentAttempt.value
           == old(retry.Facts().currentAttempt.value).(
                terminalEventDelivered := observation.started && observation.TerminalEventDelivered())
    {
      if observation.started && observation.TerminalEventDelivered() {
        TerminalEventKeeps(retry.Facts(), configuration.identity);
        var delivered := retry.RecordTerminalEventDelivered(attemptId);
        assert delivered.Ok?;
      }
    }

    method RecordRelease(attemptId: T.AttemptId)
      requires AttemptEnded(retry.Facts(), configuration.identity) && IsAttempt(retry.Facts(), attemptId)
      requires retry.Facts().revision <= (if retry.Facts().desiredRunning then 6 else 7)
      modifies retry
      ensures AttemptClosed(retry.Facts(), configuration.identity) && GoesOn(old(retry.Facts()), retry.Facts())
      ensures var a, was := retry.Facts().currentAttempt.value, old(retry.Facts().currentAttempt.value);
              && a == was.(lifecycle := a.lifecycle, resourcesReleased := true)
              && (retry.Facts().phase == T.RetryPhase.Waiting <==> retry.Facts().desiredRunning && a.ReadyForEvaluation())
    {
      ReleaseCloses(retry.Facts(), configuration.identity);
      var released := retry.RecordCleanupComplete(attemptId);
      assert released.Ok?;
    }

    /** The advice on the attempt that is over; without one there is nothing to advise on. */
    method RecordRecoveryEvaluation()
      requires NeverRetries(configuration)
      requires retry.generation.Some? ==> completion.Some? && AttemptClosed(retry.Facts(), configuration.identity)
      modifies `decision
      ensures retry.generation.None? ==> decision == old(decision)
      ensures retry.generation.Some? ==> decision == Some(Advice(retry.Facts()))
    {
      var input := RecoverySnapshot(retry.Facts(), completion, observation);
      if retry.generation.Some? {
        DisabledAdvises(configuration, retry.Facts(), completion.value, observation);
      }
      if input.None? {
        return;
      }
      decision := Some(Evaluate(configuration, input.value, retry.desiredRunning, retry.generation.value));
    }
  }

  /** One call of the supervisor's owner, or one event from the worker, with the environment's answer. */
  datatype Call =
    | CallStart(factoryFails: bool, preStopped: bool, spawnFails: bool, events: seq<StreamEvent>)
    | CallWait(outcome: ChannelOutcome, events: seq<StreamEvent>)
    | CallStop(outcome: ChannelOutcome, events: seq<StreamEvent>)
    | CallDeliver(event: StreamEvent)

  /**
   Whatever is called in whatever order, and however the owner behaves: no internal expectation
   fails, at most one owner is ever created, an outcome once reported never changes, and no
   recorded decision permits a replacement.
   */
  method Drive(configuration: C.ConfigurationSnapshot, calls: seq<Call>) returns (s: CaptureSupervisor)
    requires NeverRetries(configuration)
    ensures fresh(s) && s.Valid() && s.factoryCalls <= 1
    ensures s.decision.Some? ==> !s.decision.value.PermitReplacement?
    ensures s.state.Completed? <==> s.completion.Some? && s.resourcesReleased
  {
    s := new CaptureSupervisor(configuration);
    ghost var reported: Option<Completion> := None;
    for i := 0 to |calls|
      invariant fresh(s.Objects()) && s.Valid()
      invariant reported == s.completion
    {
      match calls[i] {
        case CallStart(factoryFails, preStopped, spawnFails, events) =>
          var _ := s.Start(factoryFails, preStopped, spawnFails, events);
        case CallWait(outcome, events) =>
          var _ := s.WaitForCompletion(outcome, events);
        case CallStop(outcome, events) =>
          var _ := s.Stop(outcome, events);
        case CallDeliver(event) =>
          s.Deliver(event);
      }
      assert reported.Some? ==> s.completion == reported;
      reported := s.completion;
    }
  }
}
