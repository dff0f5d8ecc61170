/**
 What a supervised capture shows, how its one attempt is recorded, and what recovery policy advises
 on it (crates/resonance-agent/src/supervisor.rs).
 */
module SupervisorStages {
  import opened Base
  import opened Owner
  import C = RecoveryConfig
  import P = Recovery
  import T = RetryTransitions

  datatype StreamEndReason = ConsumerCancelled | SourceEnded | EndedSourceReconfigured | ProviderShutdown | EndedFailed

  datatype StreamEvent =
    | EventStarted
    | EventData
    | EventError(kind: ErrorKind, hint: RecoveryTypes.RetryHint)
    | EventEnded(reason: StreamEndReason)

  /** Terminal lifecycle information delivered to the consumer callback. */
  datatype Observation = Observation(
    started: bool,
    error: Option<(ErrorKind, RecoveryTypes.RetryHint)>,
    endReason: Option<StreamEndReason>)
  {
    predicate TerminalEventDelivered() {
      endReason.Some?
    }

    function After(event: StreamEvent): Observation {
      match event
      case EventStarted => this.(started := true)
      case EventData => this
      case EventError(kind, hint) => this.(error := Some((kind, hint)))
      case EventEnded(reason) => this.(endReason := Some(reason))
    }
  }

  function Observed(observation: Observation, events: seq<StreamEvent>): Observation
    decreases |events|
  {
    if events == [] then observation else Observed(observation.After(events[0]), events[1..])
  }

  datatype Completion =
    | ConstructionFailed
    | OwnerCompleted(owner: OwnerCompletion)

  function RetryFailureFor(completion: Completion): Option<T.FailureCause> {
    match completion
    case ConstructionFailed => Some(T.OwnerConstructionFailure)
    case OwnerCompleted(StoppedBeforeStart) => None
    case OwnerCompleted(Finished(_)) => None
    case OwnerCompleted(StartFailed) => Some(T.StartupFailure)
    case OwnerCompleted(Panicked) => Some(T.WorkerPanic)
    case OwnerCompleted(Failed(kind, _)) =>
      Some(match kind
           case KindSourceUnavailable => T.DeviceUnavailable(RecoveryTypes.Invalidated)
           case KindStreamInterrupted => T.Interrupted
           case KindUnsupportedFormat => T.UnsupportedFormat
           case KindResourceExhausted => T.ResourceExhausted
           case _ => T.InternalFailure)
  }

  const RETRY_HISTORY_CAPACITY: nat := 16

  datatype EvaluationInput = EvaluationInput(
    retry: T.RetrySnapshot, cause: RecoveryTypes.RecoveryCause, evidence: P.RecoveryEvidence)

  function CauseFor(retry: T.RetrySnapshot): RecoveryTypes.RecoveryCause {
    if !retry.desiredRunning then RecoveryTypes.ExplicitStop
    else if retry.lastFailure.Some? then P.CauseOf(retry.lastFailure.value.cause)
    else RecoveryTypes.NormalShutdown
  }

  /** What the supervisor evaluates: its own facts, with every fact it cannot know left missing. */
  function RecoverySnapshot(facts: T.RetryFacts, completion: Option<Completion>, observation: Observation):
    Option<EvaluationInput>
  {
    match T.Snapshot(facts)
    case Err(_) => None
    case Ok(retry) =>
      if retry.currentAttempt.None? || completion.None? then None
      else
        var attempt := retry.currentAttempt.value;
        var hint :=
          match completion.value
          case OwnerCompleted(Failed(_, hint)) => Some(hint)
          case _ => if observation.error.Some? then Some(observation.error.value.1) else None;
        Some(EvaluationInput(
               retry, CauseFor(retry),
               P.RecoveryEvidence(
                 Some(attempt.streamStarted), Some(attempt.terminalEventDelivered), Some(true),
                 Some(attempt.resourcesReleased), hint, None, None, None, None, None, None, None, None)))
  }

  function Evaluate(
    configuration: C.ConfigurationSnapshot, input: EvaluationInput, currentDesiredRunning: bool, currentGeneration: u64):
    RecoveryTypes.RecoveryDecision
  {
    P.EvaluateRecoveryPolicy(
      configuration, configuration.identity, input.retry,
      P.RecoveryContext(currentDesiredRunning, currentGeneration, input.retry.generation),
      input.cause, input.evidence)
  }

  /** No failure class may be retried. */
  ghost predicate NeverRetries(configuration: C.ConfigurationSnapshot) {
    RetriesNothing(configuration.configuration)
  }

  ghost predicate RetriesNothing(c: C.RecoveryConfiguration) {
    forall class_: T.FailureClass :: c.Disposition(class_) == C.NonRetryable
  }

  lemma ShippedRetriesNothing(version: u64)
    ensures RetriesNothing(C.RecoveryDisabled(version))
  {
  }

  /** Such a configuration, the shipped one among them, never lets an evaluation permit a replacement. */
  lemma DisabledNeverPermits(
    configuration: C.ConfigurationSnapshot, facts: T.RetryFacts, completion: Option<Completion>, observation: Observation,
    desired: bool, generation: u64)
    requires NeverRetries(configuration) && RecoverySnapshot(facts, completion, observation).Some?
    ensures var input := RecoverySnapshot(facts, completion, observation).value;
            !Evaluate(configuration, input, desired, generation).PermitReplacement?
  {
    var input := RecoverySnapshot(facts, completion, observation).value;
    P.PermitIff(configuration, configuration.identity, input.retry,
                P.RecoveryContext(desired, generation, input.retry.generation), input.cause, input.evidence);
  }

  /** The advice on an attempt that is over, where nothing is retried. */
  function Advice(s: T.RetryFacts): RecoveryTypes.RecoveryDecision
    requires s.currentAttempt.Some?
  {
    var a := s.currentAttempt.value;
    if !s.desiredRunning then RecoveryTypes.RemainStopped(RecoveryTypes.BecauseExplicitStop)
    else if a.streamStarted && !a.terminalEventDelivered then RecoveryTypes.Wait(RecoveryTypes.TerminalBoundaryPending)
    else if a.failure.Some? then RecoveryTypes.RemainStopped(RecoveryTypes.ConfiguredNonRetryable)
    else RecoveryTypes.RemainStopped(RecoveryTypes.BecauseNormalShutdown)
  }

  /** Evidence of an attempt that is over. */
  predicate IsOver(e: P.RecoveryEvidence) {
    && e.streamStarted.Some? && e.terminalEventDelivered.Some? && P.Yes(e.ownerCompleted) && P.Yes(e.resourcesReleased)
    && (e.terminalEventDelivered.value ==> e.streamStarted.value)
  }

  lemma NonRetryableIsFinal(configuration: C.ConfigurationSnapshot, retry: T.RetrySnapshot, e: P.RecoveryEvidence)
    requires NeverRetries(configuration) && retry.configurationId == configuration.identity && IsOver(e)
    ensures P.EvaluateRecoveryPolicy(
              configuration, configuration.identity, retry,
              P.RecoveryContext(retry.desiredRunning, retry.generation, retry.generation), CauseFor(retry), e)
            == if !retry.desiredRunning then RecoveryTypes.RemainStopped(RecoveryTypes.BecauseExplicitStop)
               else if e.streamStarted.value && !e.terminalEventDelivered.value then
                 RecoveryTypes.Wait(RecoveryTypes.TerminalBoundaryPending)
               else if retry.lastFailure.Some? then RecoveryTypes.RemainStopped(RecoveryTypes.ConfiguredNonRetryable)
               else RecoveryTypes.RemainStopped(RecoveryTypes.BecauseNormalShutdown)
  {
    if retry.lastFailure.Some? {
      P.CauseMatchesIff(P.CauseOf(retry.lastFailure.value.cause), retry.lastFailure.value.cause);
    }
  }

  /**
   Whatever hint came with the end: a failure of a wanted attempt that is over stays final, an end
   without failure is a shutdown, and only a terminal event not yet delivered is waited for.
   */
  lemma DisabledAdvises(
    configuration: C.ConfigurationSnapshot, facts: T.RetryFacts, completion: Completion, observation: Observation)
    requires NeverRetries(configuration) && AttemptClosed(facts, configuration.identity)
    ensures RecoverySnapshot(facts, Some(completion), observation).Some?
    ensures var input := RecoverySnapshot(facts, Some(completion), observation).value;
            Evaluate(configuration, input, facts.desiredRunning, facts.generation.value) == Advice(facts)
  {
    var input := RecoverySnapshot(facts, Some(completion), observation).value;
    NonRetryableIsFinal(configuration, input.retry, input.evidence);
  }

  // ----- stages of the one attempt -----

  predicate FreshCounters(s: T.RetryFacts) {
    && s.failureTotals == T.NO_FAILURES
    && s.consecutiveFailedAttempts == 0
    && s.episode.None? && s.lastFailure.None?
  }

  /** The intent was started under this configuration. */
  predicate IntentIsKnown(s: T.RetryFacts, under: T.ConfigurationIdentity) {
    s.generation.Some? && s.configurationId == Some(under)
  }

  /** The attempt is committed; its factory call has not returned. */
  predicate AttemptCommitted(s: T.RetryFacts, under: T.ConfigurationIdentity) {
    && IntentIsKnown(s, under) && s.desiredRunning && s.revision == 2
    && s.phase == T.Attempting
    && FreshCounters(s)
    && s.currentAttempt.Some?
    && s.currentAttempt.value == T.AttemptState(
      s.currentAttempt.value.id, T.InitialStart, T.Committed, false, false, false, None)
  }

  /** On fresh facts the first start and the first commit both succeed. */
  lemma FirstCommit(under: T.ConfigurationIdentity)
    ensures var started := T.ExplicitStart(T.INITIAL_FACTS, under);
            && started.Ok?
            && var committed := T.CommitInitialAttempt(started.value.0, started.value.1);
               && committed.Ok? && AttemptCommitted(committed.value.0, under)
               && committed.value.0.currentAttempt.value.id == committed.value.1
  {
  }

  /** The owner exists and has not completed; stopping may have cleared the intent. */
  predicate AttemptOpen(s: T.RetryFacts, under: T.ConfigurationIdentity) {
    && IntentIsKnown(s, under)
    && s.revision == (if s.desiredRunning then 3 else 4)
    && s.phase !in {T.RetryPhase.Waiting, T.RetryPhase.Exhausted}
    && FreshCounters(s)
    && s.currentAttempt.Some?
    && s.currentAttempt.value == T.AttemptState(
      s.currentAttempt.value.id, T.InitialStart, T.OwnerCreated, false, false, false, None)
  }

  /** The owner has completed; its outcome is not recorded yet. */
  predicate AttemptLive(s: T.RetryFacts, under: T.ConfigurationIdentity) {
    && IntentIsKnown(s, under) && s.revision <= 5
    && s.phase !in {T.RetryPhase.Waiting, T.RetryPhase.Exhausted}
    && FreshCounters(s)
    && s.currentAttempt.Some?
    && var a := s.currentAttempt.value;
       && a.lifecycle in {T.OwnerCreated, T.AttemptLifecycle.Running}
       && a.failure.None? && !a.resourcesReleased && !a.terminalEventDelivered
  }

  /** What the counters and the last failure say is the failure of the one attempt, or that there was none. */
  predicate IsAccounted(s: T.RetryFacts)
    requires s.currentAttempt.Some?
  {
    var a := s.currentAttempt.value;
    match a.failure
    case None => FreshCounters(s)
    case Some(cause) =>
      && s.failureTotals == T.NO_FAILURES.(total := 1).With(T.ClassOf(cause), 1)
      && s.consecutiveFailedAttempts == 1
      && s.lastFailure.Some? && s.lastFailure.value.cause == cause
      && s.lastFailure.value.attemptId == a.id && s.lastFailure.value.streamStarted == a.streamStarted
  }

  /** The outcome is recorded; the attempt still holds its resources. */
  predicate AttemptEnded(s: T.RetryFacts, under: T.ConfigurationIdentity) {
    && IntentIsKnown(s, under) && s.revision <= 7
    && s.phase !in {T.RetryPhase.Waiting, T.RetryPhase.Exhausted}
    && s.currentAttempt.Some? && IsAccounted(s)
    && var a := s.currentAttempt.value;
       && a.lifecycle == (if a.failure.Some? then T.AttemptLifecycle.Failed else T.Completed)
       && !a.resourcesReleased && (a.terminalEventDelivered ==> a.streamStarted)
  }

  /** The attempt is over and released. */
  predicate AttemptClosed(s: T.RetryFacts, under: T.ConfigurationIdentity) {
    && IntentIsKnown(s, under) && s.revision <= (if s.desiredRunning then 8 else 9)
    && s.currentAttempt.Some? && IsAccounted(s)
    && var a := s.currentAttempt.value;
       && a.resourcesReleased && (a.terminalEventDelivered ==> a.streamStarted)
       && (a.failure.None? ==> a.lifecycle == T.AttemptLifecycle.CleanupComplete)
  }

  predicate FailedWith(ended: Completion, kind: ErrorKind) {
    ended.OwnerCompleted? && ended.owner.Failed? && ended.owner.kind == kind
  }

  /** Which end is which failure, class by class; a finished or never started run is none. */
  predicate FailureFits(ended: Completion, failure: Option<T.FailureCause>) {
    && (failure.None? <==> ended.OwnerCompleted? && (ended.owner.StoppedBeforeStart? || ended.owner.Finished?))
    && (failure == Some(T.OwnerConstructionFailure) <==> ended.ConstructionFailed?)
    && (failure == Some(T.StartupFailure) <==> ended == OwnerCompleted(StartFailed))
    && (failure == Some(T.WorkerPanic) <==> ended == OwnerCompleted(Panicked))
    && (failure == Some(T.DeviceUnavailable(RecoveryTypes.Invalidated)) <==> FailedWith(ended, KindSourceUnavailable))
    && (failure == Some(T.Interrupted) <==> FailedWith(ended, KindStreamInterrupted))
    && (failure == Some(T.UnsupportedFormat) <==> FailedWith(ended, KindUnsupportedFormat))
    && (failure == Some(T.ResourceExhausted) <==> FailedWith(ended, KindResourceExhausted))
    && (failure == Some(T.InternalFailure) <==>
        || FailedWith(ended, KindPermissionDenied) || FailedWith(ended, KindInvalidRequest)
        || FailedWith(ended, KindInternal))
  }

  lemma EveryEndFits(ended: Completion)
    ensures FailureFits(ended, RetryFailureFor(ended))
  {
  }

  /** The attempt is over, and what is recorded of it is how it ended. */
  predicate RecordsEnd(s: T.RetryFacts, under: T.ConfigurationIdentity, ended: Completion) {
    AttemptClosed(s, under) && FailureFits(ended, s.currentAttempt.value.failure)
  }

  /**
   The closed attempt carries exactly what was observed, and policy may evaluate it exactly when
   it failed while wanted, with its terminal event delivered if its stream had started.
   */
  predicate RecordsOutcome(s: T.RetryFacts, under: T.ConfigurationIdentity, ended: Completion, seen: Observation) {
    && RecordsEnd(s, under, ended)
    && var a := s.currentAttempt.value;
       && a.streamStarted == seen.started
       && a.terminalEventDelivered == (seen.started && seen.TerminalEventDelivered())
       && (s.phase == T.RetryPhase.Waiting <==> s.desiredRunning && a.ReadyForEvaluation())
  }

  // ----- from stage to stage -----

  predicate IsAttempt(s: T.RetryFacts, id: T.AttemptId) {
    s.currentAttempt.Some? && s.currentAttempt.value.id == id
  }

  /** The same attempt of the same intent, one revision later. */
  predicate GoesOn(s: T.RetryFacts, next: T.RetryFacts) {
    && s.currentAttempt.Some? && next.currentAttempt.Some? && next.currentAttempt.value.id == s.currentAttempt.value.id
    && next.desiredRunning == s.desiredRunning && next.revision == s.revision + 1
  }

  lemma StreamStarts(s: T.RetryFacts, under: T.ConfigurationIdentity)
    requires AttemptOpen(s, under)
    ensures var r := T.RecordStreamStarted(s, s.currentAttempt.value.id);
            && r.Ok? && AttemptLive(r.value.0, under) && GoesOn(s, r.value.0)
            && r.value.0.currentAttempt.value.streamStarted
  {
  }

  lemma CompletionEnds(s: T.RetryFacts, under: T.ConfigurationIdentity)
    requires AttemptLive(s, under)
    ensures var r := T.RecordNormalCompletion(s, s.currentAttempt.value.id);
            && r.Ok? && AttemptEnded(r.value.0, under) && GoesOn(s, r.value.0)
            && r.value.0.currentAttempt.value == s.currentAttempt.value.(lifecycle := T.Completed)
  {
  }

  lemma FailureEnds(s: T.RetryFacts, under: T.ConfigurationIdentity, cause: T.FailureCause)
    requires AttemptLive(s, under)
    ensures var r := T.RecordFailure(RETRY_HISTORY_CAPACITY, s, s.currentAttempt.value.id, cause);
            && r.Ok? && AttemptEnded(r.value.0, under) && GoesOn(s, r.value.0)
            && r.value.0.currentAttempt.value
               == s.currentAttempt.value.(lifecycle := T.AttemptLifecycle.Failed, failure := Some(cause))
  {
  }

  lemma TerminalEventKeeps(s: T.RetryFacts, under: T.ConfigurationIdentity)
    requires AttemptEnded(s, under) && s.currentAttempt.value.streamStarted && s.revision <= 6
    ensures var r := T.RecordTerminalEventDelivered(s, s.currentAttempt.value.id);
            && r.Ok? && AttemptEnded(r.value.0, under) && GoesOn(s, r.value.0)
            && r.value.0.currentAttempt.value == s.currentAttempt.value.(terminalEventDelivered := true)
  {
  }

  lemma ReleaseCloses(s: T.RetryFacts, under: T.ConfigurationIdentity)
    requires AttemptEnded(s, under) && s.revision <= (if s.desiredRunning then 6 else 7)
    ensures var r := T.RecordCleanupComplete(s, s.currentAttempt.value.id);
            && r.Ok? && AttemptClosed(r.value.0, under) && GoesOn(s, r.value.0)
            && r.value.0.currentAttempt.value
               == s.currentAttempt.value.(lifecycle := r.value.0.currentAttempt.value.lifecycle, resourcesReleased := true)
            && (r.value.0.phase == T.RetryPhase.Waiting <==>
                s.desiredRunning && r.value.0.currentAttempt.value.ReadyForEvaluation())
  {
  }

  /** A construction that fails is recorded and released at once. */
  lemma ConstructionFails(s: T.RetryFacts, under: T.ConfigurationIdentity)
    requires AttemptCommitted(s, under)
    ensures var failed := T.RecordFailure(RETRY_HISTORY_CAPACITY, s, s.currentAttempt.value.id, T.OwnerConstructionFailure);
            && failed.Ok?
            && var released := T.RecordCleanupComplete(failed.value.0, s.currentAttempt.value.id);
               released.Ok? && RecordsEnd(released.value.0, under, ConstructionFailed)
  {
  }

  /** Stopping the intent leaves the stage of its attempt, and what is recorded of it, alone. */
  lemma StoppingKeeps(s: T.RetryFacts, under: T.ConfigurationIdentity)
    requires s.generation.Some? && s.desiredRunning && s.revision <= 8
    ensures var r := T.ExplicitStop(s, s.generation.value);
            && r.Ok? && !r.value.0.desiredRunning
            && r.value.0.currentAttempt == s.currentAttempt
            && (AttemptOpen(s, under) ==> AttemptOpen(r.value.0, under))
            && (AttemptClosed(s, under) ==> AttemptClosed(r.value.0, under))
  {
  }

  // ----- what the worker showed -----

  predicate ShowsStart(events: seq<StreamEvent>) {
    exists k :: 0 <= k < |events| && events[k].EventStarted?
  }

  function LastError(events: seq<StreamEvent>): Option<(ErrorKind, RecoveryTypes.RetryHint)> {
    if events == [] then None
    else if events[|events| - 1].EventError? then Some((events[|events| - 1].kind, events[|events| - 1].hint))
    else LastError(events[..|events| - 1])
  }

  function LastEnd(events: seq<StreamEvent>): Option<StreamEndReason> {
    if events == [] then None
    else if events[|events| - 1].EventEnded? then Some(events[|events| - 1].reason)
    else LastEnd(events[..|events| - 1])
  }

  const UNSEEN := Observation(false, None, None)

  lemma {:induction false} ObservedLast(observation: Observation, events: seq<StreamEvent>)
    requires events != []
    ensures Observed(observation, events)
         == Observed(observation, events[..|events| - 1]).After(events[|events| - 1])
    decreases |events|
  {
    if |events| > 1 {
      ObservedLast(observation.After(events[0]), events[1..]);
      assert events[1..][..|events| - 2] == events[..|events| - 1][1..];
    }
  }

  /** The stream counts as started exactly if a start was shown; of errors and ends the last one shown counts. */
  lemma {:induction false} ObservedIff(events: seq<StreamEvent>)
    ensures Observed(UNSEEN, events).started <==> ShowsStart(events)
    ensures Observed(UNSEEN, events).error == LastError(events)
    ensures Observed(UNSEEN, events).endReason == LastEnd(events)
  {
    if events != [] {
      var before, last := events[..|events| - 1], events[|events| - 1];
      ObservedLast(UNSEEN, events);
      ObservedIff(before);
      if ShowsStart(before) {
        var k :| 0 <= k < |before| && before[k].EventStarted?;
        assert events[k].EventStarted?;
      }
      if ShowsStart(events) && !last.EventStarted? {
        var k :| 0 <= k < |events| && events[k].EventStarted?;
        assert before[k].EventStarted?;
      }
    }
  }

  /** The hint policy hears: the owner's own if the run failed, and otherwise that of the last error shown. */
  predicate IsHeard(ended: Completion, events: seq<StreamEvent>, hint: RecoveryTypes.RetryHint) {
    if ended.OwnerCompleted? && ended.owner.Failed? then ended.owner.hint == hint
    else LastError(events).Some? && LastError(events).value.1 == hint
  }

  /**
   Policy is given what was recorded of the attempt and the hint that was heard, and is left to miss
   everything else; there is something to evaluate exactly once an attempt has ended.
   */
  lemma EvaluatesWhatWasSeen(
    s: T.RetryFacts, completion: Option<Completion>, events: seq<StreamEvent>, hint: RecoveryTypes.RetryHint)
    requires s.currentAttempt.Some? ==> s.generation.Some? && s.configurationId.Some?
    ensures var input := RecoverySnapshot(s, completion, Observed(UNSEEN, events));
            && (input.Some? <==> s.currentAttempt.Some? && completion.Some?)
            && (input.Some? ==>
                  var e, a := input.value.evidence, s.currentAttempt.value;
                  && T.Snapshot(s) == Ok(input.value.retry)
                  && (input.value.cause.ExplicitStop? <==> !s.desiredRunning)
                  && (input.value.cause.NormalShutdown? <==> s.desiredRunning && s.lastFailure.None?)
                  && (s.desiredRunning && s.lastFailure.Some? ==>
                        P.CauseMatchesFailure(input.value.cause, s.lastFailure.value.cause))
                  && e.streamStarted == Some(a.streamStarted) && e.terminalEventDelivered == Some(a.terminalEventDelivered)
                  && e.resourcesReleased == Some(a.resourcesReleased) && P.Yes(e.ownerCompleted)
                  && (e.retryHint == Some(hint) <==> IsHeard(completion.value, events, hint))
                  && e.attemptsRemaining.None? && e.cooldownComplete.None? && e.sourceAvailable.None?
                  && e.sourcePolicy.None? && e.replacementSourceResolved.None? && e.supportedFormatAvailable.None?
                  && e.pressureCleared.None? && e.changedPrecondition.None?)
  {
    ObservedIff(events);
    if s.lastFailure.Some? {
      P.CauseMatchesIff(P.CauseOf(s.lastFailure.value.cause), s.lastFailure.value.cause);
    }
  }
}
