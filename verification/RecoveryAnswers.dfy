/** Every answer of the recovery policy with its reason, as conditions on the facts it is given. */
module RecoveryAnswers {
  import opened Base
  import opened Recovery
  import opened RecoveryConfig
  import opened RecoveryTypes
  import T = RetryTransitions

  datatype Question = Question(
    configuration: ConfigurationSnapshot,
    currentConfigurationId: T.ConfigurationIdentity,
    retry: T.RetrySnapshot,
    context: RecoveryContext,
    cause: RecoveryCause,
    evidence: RecoveryEvidence)

  function Answer(q: Question): RecoveryDecision {
    EvaluateRecoveryPolicy(q.configuration, q.currentConfigurationId, q.retry, q.context, q.cause, q.evidence)
  }

  // ----- what is asked about -----

  predicate IsWanted(q: Question) {
    q.context.desiredRunning && !q.cause.ExplicitStop?
  }

  predicate OfThisIntent(q: Question) {
    q.context.evaluatedGeneration == q.context.currentGeneration
  }

  predicate OfThisConfiguration(q: Question) {
    q.retry.configurationId == q.configuration.identity == q.currentConfigurationId
  }

  predicate OfThisState(q: Question) {
    q.retry.desiredRunning == q.context.desiredRunning && q.retry.generation == q.context.evaluatedGeneration
  }

  predicate IsCurrent(q: Question) {
    IsWanted(q) && OfThisIntent(q) && OfThisConfiguration(q) && OfThisState(q)
  }

  predicate LifecycleIsKnown(e: RecoveryEvidence) {
    && e.streamStarted.Some? && e.ownerCompleted.Some? && e.resourcesReleased.Some?
    && (Yes(e.streamStarted) && IsReleased(e) ==> e.terminalEventDelivered.Some?)
  }

  predicate IsReleased(e: RecoveryEvidence) {
    Yes(e.ownerCompleted) && Yes(e.resourcesReleased)
  }

  predicate AwaitsCleanup(e: RecoveryEvidence) {
    LifecycleIsKnown(e) && !IsReleased(e)
  }

  predicate AwaitsTerminal(e: RecoveryEvidence) {
    IsReleased(e) && Yes(e.streamStarted) && No(e.terminalEventDelivered)
  }

  /** A terminal event of a stream that never started. */
  predicate LifecycleContradicts(e: RecoveryEvidence) {
    IsReleased(e) && No(e.streamStarted) && Yes(e.terminalEventDelivered)
  }

  // ----- the recorded failure -----

  /** The cause is the one of the recorded failure, if there is one, and its attempt is over. */
  predicate IsReady(q: Question) {
    && IsCurrent(q) && LifecycleIsComplete(q.evidence)
    && (q.retry.lastFailure.Some? ==> q.cause == CauseOf(q.retry.lastFailure.value.cause))
  }

  function DispositionOf(q: Question): FailureDisposition
    requires q.retry.lastFailure.Some?
  {
    q.configuration.configuration.Disposition(T.ClassOf(q.retry.lastFailure.value.cause))
  }

  predicate IsRetryable(q: Question)
    requires q.retry.lastFailure.Some?
  {
    !DispositionOf(q).NonRetryable?
  }

  /** The episode is not exhausted and has started fewer automatic attempts than configured. */
  predicate HasAttemptsLeft(q: Question) {
    var maximum := q.configuration.configuration.budget.maximumAutomaticAttempts;
    if q.retry.episode.None? then maximum > 0
    else q.retry.episode.value.exhaustion.None? && q.retry.episode.value.automaticAttemptsStarted < maximum
  }

  /** A cooldown or a backoff is configured, and the cooldown is not satisfied. */
  predicate IsCoolingDown(q: Question) {
    && (q.configuration.configuration.cooldown.CooldownRequired? || q.configuration.configuration.backoff.BackoffRequired?)
    && !q.retry.cooldown.Satisfied?
  }

  /** A recorded failure may be retried, and its budget and delay leave room for it now. */
  predicate IsDue(q: Question)
    requires q.retry.lastFailure.Some?
  {
    && IsRetryable(q) && !Says(q.evidence.retryHint, DoNotRetry)
    && HasAttemptsLeft(q) && !IsCoolingDown(q)
  }

  function FactFor(requirement: EvidenceRequirement, e: RecoveryEvidence): Option<bool> {
    match requirement
    case NeedsSourceAvailable => e.sourceAvailable
    case NeedsSupportedFormat => e.supportedFormatAvailable
    case NeedsPressureCleared => e.pressureCleared
    case NeedsChangedPrecondition => e.changedPrecondition
  }

  /** The configuration asks for evidence before this failure is retried. */
  predicate Demands(q: Question) {
    IsReady(q) && q.retry.lastFailure.Some? && IsDue(q) && DispositionOf(q).AdditionalEvidenceRequired?
  }

  /** It asks for this fact, and the fact is false. */
  predicate LacksStill(q: Question, requirement: EvidenceRequirement) {
    Demands(q) && DispositionOf(q).requirement == requirement && No(FactFor(requirement, q.evidence))
  }

  /** Nothing but the cause itself is left to decide. */
  predicate IsUpToCause(q: Question) {
    && IsReady(q)
    && (q.retry.lastFailure.Some? ==>
          && IsDue(q)
          && (DispositionOf(q).AdditionalEvidenceRequired? ==>
                Yes(FactFor(DispositionOf(q).requirement, q.evidence))))
  }

  /** Budget and delay of a recorded failure are the configuration's business, not the evidence's. */
  function Facts(q: Question): RecoveryEvidence {
    if q.retry.lastFailure.Some? then q.evidence.(attemptsRemaining := Some(true), cooldownComplete := Some(true))
    else q.evidence
  }

  // ----- what each cause decides -----

  /** The evidence each cause wants to see before it decides anything else. */
  predicate IsKnownFor(cause: RecoveryCause, e: RecoveryEvidence) {
    match cause
    case DeviceUnavailable(_) => e.sourcePolicy.Some? && e.sourceAvailable.Some? && e.attemptsRemaining.Some?
    case SourceReconfigured(DefaultEndpointChanged) =>
      e.sourcePolicy.Some? && e.replacementSourceResolved.Some? && e.attemptsRemaining.Some?
    case SourceReconfigured(FormatChanged) => e.supportedFormatAvailable.Some? && e.attemptsRemaining.Some?
    case Interrupted => e.attemptsRemaining.Some?
    case ResourceExhausted => e.attemptsRemaining.Some? && e.cooldownComplete.Some? && e.pressureCleared.Some?
    case _ => true
  }

  predicate CanRecover(cause: RecoveryCause) {
    cause.DeviceUnavailable? || cause.SourceReconfigured? || cause.Interrupted? || cause.ResourceExhausted?
  }

  predicate HearsHint(cause: RecoveryCause) {
    CanRecover(cause) || cause.UnsupportedFormat? || cause.InternalFailure?
  }

  /** The hints a cause can come with, other than a veto. */
  predicate Fits(cause: RecoveryCause, hint: RetryHint) {
    match cause
    case DeviceUnavailable(_) => hint.WaitForSource?
    case Interrupted => hint.RetryNow? || hint.RetryLater?
    case ResourceExhausted => hint.RetryLater?
    case _ => true
  }

  /** The hint is there, is no veto, and is one the cause can come with. */
  predicate HintFits(cause: RecoveryCause, e: RecoveryEvidence) {
    e.retryHint.Some? && !e.retryHint.value.DoNotRetry? && Fits(cause, e.retryHint.value)
  }

  predicate IsPinned(cause: RecoveryCause, e: RecoveryEvidence) {
    cause == SourceReconfigured(DefaultEndpointChanged) && e.sourcePolicy == Some(Pinned)
  }

  /** Everything the cause asks is known and its budget is not spent: only the pending fact is open. */
  predicate HasBudget(cause: RecoveryCause, e: RecoveryEvidence) {
    CanRecover(cause) && HintFits(cause, e) && IsKnownFor(cause, e) && !IsPinned(cause, e) && Yes(e.attemptsRemaining)
  }

  predicate CauseWaits(cause: RecoveryCause, e: RecoveryEvidence, reason: RecoveryDecisionReason) {
    && HasBudget(cause, e)
    && match reason
       case SourceUnavailable => cause.DeviceUnavailable? && No(e.sourceAvailable)
       case ReplacementSourcePending =>
         cause == SourceReconfigured(DefaultEndpointChanged) && No(e.replacementSourceResolved)
       case SupportedFormatUnavailable => cause == SourceReconfigured(FormatChanged) && No(e.supportedFormatAvailable)
       case CooldownPending => cause.Interrupted? && Says(e.retryHint, RetryLater) && No(e.cooldownComplete)
       case PressureClearancePending => cause.ResourceExhausted? && (No(e.cooldownComplete) || No(e.pressureCleared))
       case _ => false
  }

  /** An interruption looks at its budget before its hint; resource exhaustion at all its facts before its hint. */
  predicate CauseMisses(cause: RecoveryCause, e: RecoveryEvidence) {
    && !Says(e.retryHint, DoNotRetry)
    && match cause
       case DeviceUnavailable(_) => e.retryHint.None? || (HintFits(cause, e) && !IsKnownFor(cause, e))
       case SourceReconfigured(_) => e.retryHint.None? || !IsKnownFor(cause, e)
       case ResourceExhausted => e.retryHint.None? || !IsKnownFor(cause, e)
       case Interrupted =>
         || e.attemptsRemaining.None?
         || (Yes(e.attemptsRemaining)
             && (e.retryHint.None? || (Says(e.retryHint, RetryLater) && e.cooldownComplete.None?)))
       case _ => HearsHint(cause) && e.retryHint.None?
  }

  predicate CauseContradicts(cause: RecoveryCause, e: RecoveryEvidence) {
    && e.retryHint.Some? && !e.retryHint.value.DoNotRetry? && !Fits(cause, e.retryHint.value)
    && (cause.ResourceExhausted? ==> IsKnownFor(cause, e))
    && (cause.Interrupted? ==> Yes(e.attemptsRemaining))
  }

  predicate CauseSpent(cause: RecoveryCause, e: RecoveryEvidence) {
    && CanRecover(cause) && No(e.attemptsRemaining) && !Says(e.retryHint, DoNotRetry)
    && (cause.Interrupted? || (HintFits(cause, e) && IsKnownFor(cause, e) && !IsPinned(cause, e)))
  }

  predicate CauseRemains(cause: RecoveryCause, e: RecoveryEvidence, reason: RecoveryDecisionReason) {
    match reason
    case MissingEvidence => CauseMisses(cause, e)
    case InconsistentEvidence => CauseContradicts(cause, e)
    case RetryVetoed => HearsHint(cause) && Says(e.retryHint, DoNotRetry)
    case RetryBudgetExhausted => CauseSpent(cause, e)
    case PinnedSource => IsPinned(cause, e) && HintFits(cause, e) && IsKnownFor(cause, e)
    case BecauseNormalShutdown => cause.NormalShutdown?
    case BecauseUnsupportedFormat => cause.UnsupportedFormat? && HintFits(cause, e)
    case BecauseInternalFailure => cause.InternalFailure? && HintFits(cause, e)
    case BecauseStartupFailure => cause.StartupFailure?
    case BecauseWorkerPanic => cause.WorkerPanic?
    case _ => false
  }

  /** The reason of a permit names what came true. */
  function PermitReason(cause: RecoveryCause): RecoveryDecisionReason {
    match cause
    case DeviceUnavailable(_) => SourceAvailable
    case SourceReconfigured(DefaultEndpointChanged) => ReplacementSourceReady
    case SourceReconfigured(FormatChanged) => SupportedFormatAvailable
    case ResourceExhausted => PressureCleared
    case _ => RetryEligible
  }

  lemma CauseWaitsIff(context: RecoveryContext, cause: RecoveryCause, e: RecoveryEvidence, reason: RecoveryDecisionReason)
    requires EvaluateCommonPreconditions(context, cause, e).None?
    ensures EvaluateRecovery(context, cause, e) == Wait(reason) <==> CauseWaits(cause, e, reason)
    ensures EvaluateRecovery(context, cause, e).PermitReplacement? ==>
              EvaluateRecovery(context, cause, e).reason == PermitReason(cause)
  {
    PreconditionsIff(context, cause, e);
  }

  lemma CauseRemainsIff(context: RecoveryContext, cause: RecoveryCause, e: RecoveryEvidence, reason: RecoveryDecisionReason)
    requires EvaluateCommonPreconditions(context, cause, e).None?
    ensures EvaluateRecovery(context, cause, e) == RemainStopped(reason) <==> CauseRemains(cause, e, reason)
  {
    PreconditionsIff(context, cause, e);
  }

  lemma CauseAnswersIff(context: RecoveryContext, cause: RecoveryCause, e: RecoveryEvidence, reason: RecoveryDecisionReason)
    requires EvaluateCommonPreconditions(context, cause, e).None?
    ensures EvaluateRecovery(context, cause, e) == Wait(reason) <==> CauseWaits(cause, e, reason)
    ensures EvaluateRecovery(context, cause, e) == RemainStopped(reason) <==> CauseRemains(cause, e, reason)
    ensures EvaluateRecovery(context, cause, e).PermitReplacement? ==>
              EvaluateRecovery(context, cause, e).reason == PermitReason(cause)
  {
    CauseWaitsIff(context, cause, e, reason);
    CauseRemainsIff(context, cause, e, reason);
  }

  // ----- every answer -----

  /** Something is in the way that can still come true, and nothing before it is: then, and only then, the policy waits. */
  predicate Waits(q: Question, reason: RecoveryDecisionReason) {
    || (IsUpToCause(q) && CauseWaits(q.cause, Facts(q), reason))
    || match reason
       case CleanupPending => IsCurrent(q) && AwaitsCleanup(q.evidence)
       case TerminalBoundaryPending => IsCurrent(q) && AwaitsTerminal(q.evidence)
       case CooldownPending =>
         && IsReady(q) && q.retry.lastFailure.Some? && IsRetryable(q) && !Says(q.evidence.retryHint, DoNotRetry)
         && HasAttemptsLeft(q) && IsCoolingDown(q)
       case SourceUnavailable => LacksStill(q, NeedsSourceAvailable)
       case SupportedFormatUnavailable => LacksStill(q, NeedsSupportedFormat)
       case PressureClearancePending => LacksStill(q, NeedsPressureCleared)
       case ChangedPreconditionPending => LacksStill(q, NeedsChangedPrecondition)
       case _ => false
  }

  predicate Remains(q: Question, reason: RecoveryDecisionReason) {
    || (IsUpToCause(q) && CauseRemains(q.cause, Facts(q), reason))
    || match reason
       case BecauseExplicitStop => !IsWanted(q)
       case StaleIntent => IsWanted(q) && !OfThisIntent(q)
       case StaleConfiguration => IsWanted(q) && OfThisIntent(q) && !OfThisConfiguration(q)
       case InconsistentEvidence =>
         || (IsWanted(q) && OfThisIntent(q) && OfThisConfiguration(q) && !OfThisState(q))
         || (IsCurrent(q) && LifecycleContradicts(q.evidence))
         || (IsCurrent(q) && LifecycleIsComplete(q.evidence) && !IsReady(q))
       case MissingEvidence =>
         || (IsCurrent(q) && !LifecycleIsKnown(q.evidence))
         || (Demands(q) && FactFor(DispositionOf(q).requirement, q.evidence).None?)
       case ConfiguredNonRetryable => IsReady(q) && q.retry.lastFailure.Some? && !IsRetryable(q)
       case RetryVetoed =>
         IsReady(q) && q.retry.lastFailure.Some? && IsRetryable(q) && Says(q.evidence.retryHint, DoNotRetry)
       case RetryBudgetExhausted =>
         && IsReady(q) && q.retry.lastFailure.Some? && IsRetryable(q) && !Says(q.evidence.retryHint, DoNotRetry)
         && !HasAttemptsLeft(q)
       case _ => false
  }

  /** Before anything about a failure is looked at: how the attempt ended. */
  lemma LifecycleAnswersIff(q: Question, reason: RecoveryDecisionReason)
    requires IsCurrent(q) && !LifecycleIsComplete(q.evidence)
    ensures Answer(q) == Wait(reason) <==> Waits(q, reason)
    ensures Answer(q) == RemainStopped(reason) <==> Remains(q, reason)
    ensures !Answer(q).PermitReplacement?
  {
    PreconditionsIff(q.context, q.cause, q.evidence);
  }

  /** What the configuration decides about a recorded failure before its cause is asked: classification, budget, delay. */
  lemma NotDueAnswer(q: Question)
    requires IsReady(q) && q.retry.lastFailure.Some? && !IsDue(q)
    ensures Answer(q) == if !IsRetryable(q) then RemainStopped(ConfiguredNonRetryable)
                         else if Says(q.evidence.retryHint, DoNotRetry) then RemainStopped(RetryVetoed)
                         else if !HasAttemptsLeft(q) then RemainStopped(RetryBudgetExhausted)
                         else Wait(CooldownPending)
  {
    PreconditionsIff(q.context, q.cause, q.evidence);
    CauseMatchesIff(q.cause, q.retry.lastFailure.value.cause);
  }

  lemma NotDueAnswersIff(q: Question, reason: RecoveryDecisionReason)
    requires IsReady(q) && q.retry.lastFailure.Some? && !IsDue(q)
    ensures Answer(q) == Wait(reason) <==> Waits(q, reason)
    ensures Answer(q) == RemainStopped(reason) <==> Remains(q, reason)
    ensures !Answer(q).PermitReplacement?
  {
    NotDueAnswer(q);
  }

  function PendingFor(requirement: EvidenceRequirement): RecoveryDecisionReason {
    match requirement
    case NeedsSourceAvailable => SourceUnavailable
    case NeedsSupportedFormat => SupportedFormatUnavailable
    case NeedsPressureCleared => PressureClearancePending
    case NeedsChangedPrecondition => ChangedPreconditionPending
  }

  /** And the evidence it demands. */
  lemma DemandAnswer(q: Question)
    requires Demands(q) && !IsUpToCause(q)
    ensures var requirement := DispositionOf(q).requirement;
            Answer(q) == if FactFor(requirement, q.evidence).None? then RemainStopped(MissingEvidence)
                         else Wait(PendingFor(requirement))
  {
    PreconditionsIff(q.context, q.cause, q.evidence);
    CauseMatchesIff(q.cause, q.retry.lastFailure.value.cause);
  }

  lemma DemandAnswersIff(q: Question, reason: RecoveryDecisionReason)
    requires Demands(q) && !IsUpToCause(q)
    ensures Answer(q) == Wait(reason) <==> Waits(q, reason)
    ensures Answer(q) == RemainStopped(reason) <==> Remains(q, reason)
    ensures !Answer(q).PermitReplacement?
  {
    DemandAnswer(q);
  }

  lemma FailureIsUpToCause(q: Question)
    requires IsReady(q) && q.retry.lastFailure.Some? && IsUpToCause(q)
    ensures Answer(q) == EvaluateRecovery(q.context, q.cause, Facts(q))
    ensures EvaluateCommonPreconditions(q.context, q.cause, Facts(q)).None?
  {
    PreconditionsIff(q.context, q.cause, q.evidence);
    PreconditionsIff(q.context, q.cause, Facts(q));
    CauseMatchesIff(q.cause, q.retry.lastFailure.value.cause);
  }

  /** Nothing that is decided before the cause is open when it is up to the cause. */
  lemma OnlyCauseIsOpen(q: Question, reason: RecoveryDecisionReason)
    requires IsUpToCause(q)
    ensures Waits(q, reason) <==> CauseWaits(q.cause, Facts(q), reason)
    ensures Remains(q, reason) <==> CauseRemains(q.cause, Facts(q), reason)
  {
  }

  lemma FailureAnswersIff(q: Question, reason: RecoveryDecisionReason)
    requires IsReady(q) && q.retry.lastFailure.Some?
    ensures Answer(q) == Wait(reason) <==> Waits(q, reason)
    ensures Answer(q) == RemainStopped(reason) <==> Remains(q, reason)
    ensures Answer(q).PermitReplacement? ==> Answer(q).reason == PermitReason(q.cause)
  {
    if IsUpToCause(q) {
      FailureIsUpToCause(q);
      OnlyCauseIsOpen(q, reason);
      CauseAnswersIff(q.context, q.cause, Facts(q), reason);
    } else if IsDue(q) {
      DemandAnswersIff(q, reason);
    } else {
      NotDueAnswersIff(q, reason);
    }
  }

  lemma NoFailureAnswersIff(q: Question, reason: RecoveryDecisionReason)
    requires IsReady(q) && q.retry.lastFailure.None?
    ensures Answer(q) == Wait(reason) <==> Waits(q, reason)
    ensures Answer(q) == RemainStopped(reason) <==> Remains(q, reason)
    ensures Answer(q).PermitReplacement? ==> Answer(q).reason == PermitReason(q.cause)
  {
    PreconditionsIff(q.context, q.cause, q.evidence);
    CauseAnswersIff(q.context, q.cause, q.evidence, reason);
  }

  /**
   Exactly when the policy waits and exactly when it stays stopped, for every reason; and a permit
   is given for what the cause was waiting for.
   */
  lemma AnswersIff(q: Question, reason: RecoveryDecisionReason)
    ensures Answer(q) == Wait(reason) <==> Waits(q, reason)
    ensures Answer(q) == RemainStopped(reason) <==> Remains(q, reason)
    ensures Answer(q).PermitReplacement? ==> Answer(q).reason == PermitReason(q.cause)
  {
    PreconditionsIff(q.context, q.cause, q.evidence);
    if IsCurrent(q) && !LifecycleIsComplete(q.evidence) {
      LifecycleAnswersIff(q, reason);
    } else if IsReady(q) && q.retry.lastFailure.Some? {
      FailureAnswersIff(q, reason);
    } else if IsReady(q) {
      NoFailureAnswersIff(q, reason);
    } else if IsCurrent(q) {
      CauseMatchesIff(q.cause, q.retry.lastFailure.value.cause);
    }
  }

  // ----- what is final -----

  predicate CanBecome(fact: Option<bool>, later: Option<bool>) {
    later == fact || (No(fact) && Yes(later))
  }

  /** Some facts the policy may wait for have come true; everything else is as it was. */
  predicate HasProgressed(q: Question, later: Question) {
    var e, e' := q.evidence, later.evidence;
    && later == q.(evidence := e', retry := q.retry.(cooldown := later.retry.cooldown))
    && (later.retry.cooldown == q.retry.cooldown || later.retry.cooldown.Satisfied?)
    && e'.streamStarted == e.streamStarted && e'.retryHint == e.retryHint
    && e'.attemptsRemaining == e.attemptsRemaining && e'.sourcePolicy == e.sourcePolicy
    && CanBecome(e.ownerCompleted, e'.ownerCompleted) && CanBecome(e.resourcesReleased, e'.resourcesReleased)
    && (if No(e.streamStarted) then e'.terminalEventDelivered == e.terminalEventDelivered
        else CanBecome(e.terminalEventDelivered, e'.terminalEventDelivered))
    && CanBecome(e.cooldownComplete, e'.cooldownComplete) && CanBecome(e.sourceAvailable, e'.sourceAvailable)
    && CanBecome(e.replacementSourceResolved, e'.replacementSourceResolved)
    && CanBecome(e.supportedFormatAvailable, e'.supportedFormatAvailable)
    && CanBecome(e.pressureCleared, e'.pressureCleared) && CanBecome(e.changedPrecondition, e'.changedPrecondition)
  }

  lemma ProgressKeepsKnown(cause: RecoveryCause, q: Question, later: Question)
    requires HasProgressed(q, later)
    ensures IsKnownFor(cause, Facts(later)) <==> IsKnownFor(cause, Facts(q))
    ensures LifecycleIsComplete(q.evidence) ==> LifecycleIsComplete(later.evidence)
    ensures IsCurrent(q) <==> IsCurrent(later)
    ensures IsUpToCause(q) ==> IsUpToCause(later)
  {
  }

  lemma ProgressKeepsCause(cause: RecoveryCause, q: Question, later: Question, reason: RecoveryDecisionReason)
    requires HasProgressed(q, later) && CauseRemains(cause, Facts(q), reason)
    ensures CauseRemains(cause, Facts(later), reason)
  {
    ProgressKeepsKnown(cause, q, later);
  }

  lemma ProgressKeepsRemains(q: Question, later: Question, reason: RecoveryDecisionReason)
    requires HasProgressed(q, later) && Remains(q, reason)
    ensures Remains(later, reason)
  {
    ProgressKeepsKnown(q.cause, q, later);
    if IsUpToCause(q) {
      OnlyCauseIsOpen(q, reason);
      ProgressKeepsCause(q.cause, q, later, reason);
    }
  }

  /** Staying stopped is final: whatever the policy could have waited for, its coming true changes nothing. */
  lemma RemainStoppedIsFinal(q: Question, later: Question)
    requires HasProgressed(q, later) && Answer(q).RemainStopped?
    ensures Answer(later) == Answer(q)
  {
    var reason := Answer(q).reason;
    AnswersIff(q, reason);
    ProgressKeepsRemains(q, later, reason);
    AnswersIff(later, reason);
  }
}
