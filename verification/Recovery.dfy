/** Side-effect-free recovery policy evaluation (crates/resonance-agent/src/recovery.rs). */
module Recovery {
  import opened Base
  import opened RecoveryConfig
  import opened RecoveryTypes
  import T = RetryTransitions

  datatype RecoveryContext =
    RecoveryContext(desiredRunning: bool, currentGeneration: u64, evaluatedGeneration: u64)

  datatype SourcePolicy = Pinned | FollowDefault

  /** Missing evidence is representable and fails closed. */
  datatype RecoveryEvidence = RecoveryEvidence(
    streamStarted: Option<bool>,
    terminalEventDelivered: Option<bool>,
    ownerCompleted: Option<bool>,
    resourcesReleased: Option<bool>,
    retryHint: Option<RetryHint>,
    attemptsRemaining: Option<bool>,
    cooldownComplete: Option<bool>,
    sourceAvailable: Option<bool>,
    sourcePolicy: Option<SourcePolicy>,
    replacementSourceResolved: Option<bool>,
    supportedFormatAvailable: Option<bool>,
    pressureCleared: Option<bool>,
    changedPrecondition: Option<bool>)

  predicate Yes(fact: Option<bool>) {
    fact.Some? && fact.value
  }

  predicate No(fact: Option<bool>) {
    fact.Some? && !fact.value
  }

  predicate Says(hint: Option<RetryHint>, expected: RetryHint) {
    hint.Some? && hint.value == expected
  }

  const MISSING: RecoveryDecision := RemainStopped(MissingEvidence)

  function RetryVeto(hint: Option<RetryHint>): Option<RecoveryDecision> {
    if Says(hint, DoNotRetry) then Some(RemainStopped(RetryVetoed)) else None
  }

  function EvaluateCommonPreconditions(context: RecoveryContext, cause: RecoveryCause, e: RecoveryEvidence):
    Option<RecoveryDecision>
  {
    if !context.desiredRunning || cause.ExplicitStop? then Some(RemainStopped(BecauseExplicitStop))
    else if context.evaluatedGeneration != context.currentGeneration then Some(RemainStopped(StaleIntent))
    else if e.streamStarted.None? || e.ownerCompleted.None? || e.resourcesReleased.None? then Some(MISSING)
    else if !e.ownerCompleted.value || !e.resourcesReleased.value then Some(Wait(CleanupPending))
    else if e.streamStarted.value then
      if e.terminalEventDelivered.None? then Some(MISSING)
      else if !e.terminalEventDelivered.value then Some(Wait(TerminalBoundaryPending))
      else None
    else if Yes(e.terminalEventDelivered) then Some(RemainStopped(InconsistentEvidence))
    else None
  }

  function EvaluateDeviceUnavailable(e: RecoveryEvidence): RecoveryDecision {
    if RetryVeto(e.retryHint).Some? then RetryVeto(e.retryHint).value
    else if !Says(e.retryHint, WaitForSource) then
      if e.retryHint.None? then MISSING else RemainStopped(InconsistentEvidence)
    else if e.sourcePolicy.None? || e.sourceAvailable.None? || e.attemptsRemaining.None? then MISSING
    else if No(e.attemptsRemaining) then RemainStopped(RetryBudgetExhausted)
    else if e.sourceAvailable.value then PermitReplacement(SourceAvailable)
    else Wait(SourceUnavailable)
  }

  function EvaluateDefaultEndpointChange(e: RecoveryEvidence): RecoveryDecision {
    if RetryVeto(e.retryHint).Some? then RetryVeto(e.retryHint).value
    else if e.retryHint.None? || e.sourcePolicy.None? || e.replacementSourceResolved.None?
            || e.attemptsRemaining.None? then MISSING
    else if e.sourcePolicy.value.Pinned? then RemainStopped(PinnedSource)
    else if No(e.attemptsRemaining) then RemainStopped(RetryBudgetExhausted)
    else if e.replacementSourceResolved.value then PermitReplacement(ReplacementSourceReady)
    else Wait(ReplacementSourcePending)
  }

  function EvaluateFormatChange(e: RecoveryEvidence): RecoveryDecision {
    if RetryVeto(e.retryHint).Some? then RetryVeto(e.retryHint).value
    else if e.retryHint.None? || e.supportedFormatAvailable.None? || e.attemptsRemaining.None? then MISSING
    else if No(e.attemptsRemaining) then RemainStopped(RetryBudgetExhausted)
    else if e.supportedFormatAvailable.value then PermitReplacement(SupportedFormatAvailable)
    else Wait(SupportedFormatUnavailable)
  }

  function EvaluateInterruption(e: RecoveryEvidence): RecoveryDecision {
    if RetryVeto(e.retryHint).Some? then RetryVeto(e.retryHint).value
    else if e.attemptsRemaining.None? then MISSING
    else if !e.attemptsRemaining.value then RemainStopped(RetryBudgetExhausted)
    else
      match e.retryHint
      case Some(RetryNow) => PermitReplacement(RetryEligible)
      case Some(RetryLater) =>
        if e.cooldownComplete.None? then MISSING
        else if e.cooldownComplete.value then PermitReplacement(RetryEligible)
        else Wait(CooldownPending)
      case Some(_) => RemainStopped(InconsistentEvidence)
      case None => MISSING
  }

  function EvaluateResourceExhaustion(e: RecoveryEvidence): RecoveryDecision {
    if RetryVeto(e.retryHint).Some? then RetryVeto(e.retryHint).value
    else if e.retryHint.None? || e.attemptsRemaining.None? || e.cooldownComplete.None? || e.pressureCleared.None? then
      MISSING
    else if !Says(e.retryHint, RetryLater) then RemainStopped(InconsistentEvidence)
    else if No(e.attemptsRemaining) then RemainStopped(RetryBudgetExhausted)
    else if No(e.cooldownComplete) || No(e.pressureCleared) then Wait(PressureClearancePending)
    else PermitReplacement(PressureCleared)
  }

  function EvaluateStoppedCause(hint: Option<RetryHint>, reason: RecoveryDecisionReason): RecoveryDecision {
    if hint.None? then MISSING
    else if RetryVeto(hint).Some? then RetryVeto(hint).value
    else RemainStopped(reason)
  }

  function EvaluateRecovery(context: RecoveryContext, cause: RecoveryCause, e: RecoveryEvidence): RecoveryDecision {
    match EvaluateCommonPreconditions(context, cause, e)
    case Some(decision) => decision
    case None =>
      match cause
      case ExplicitStop => RemainStopped(BecauseExplicitStop)
      case NormalShutdown => RemainStopped(BecauseNormalShutdown)
      case DeviceUnavailable(_) => EvaluateDeviceUnavailable(e)
      case SourceReconfigured(DefaultEndpointChanged) => EvaluateDefaultEndpointChange(e)
      case SourceReconfigured(FormatChanged) => EvaluateFormatChange(e)
      case Interrupted => EvaluateInterruption(e)
      case ResourceExhausted => EvaluateResourceExhaustion(e)
      case UnsupportedFormat => EvaluateStoppedCause(e.retryHint, BecauseUnsupportedFormat)
      case InternalFailure => EvaluateStoppedCause(e.retryHint, BecauseInternalFailure)
      case StartupFailure => RemainStopped(BecauseStartupFailure)
      case WorkerPanic => RemainStopped(BecauseWorkerPanic)
  }

  /** `RecoveryCause::from(RetryFailureCause)`. */
  function CauseOf(failure: T.FailureCause): RecoveryCause {
    match failure
    case OwnerConstructionFailure => StartupFailure
    case DeviceUnavailable(device) => DeviceUnavailable(device)
    case SourceReconfigured(source) => SourceReconfigured(source)
    case Interrupted => Interrupted
    case ResourceExhausted => ResourceExhausted
    case UnsupportedFormat => UnsupportedFormat
    case InternalFailure => InternalFailure
    case StartupFailure => StartupFailure
    case WorkerPanic => WorkerPanic
  }

  predicate CauseMatchesFailure(cause: RecoveryCause, failure: T.FailureCause) {
    match (cause, failure)
    case (StartupFailure, OwnerConstructionFailure) => true
    case (StartupFailure, StartupFailure) => true
    case (Interrupted, Interrupted) => true
    case (ResourceExhausted, ResourceExhausted) => true
    case (UnsupportedFormat, UnsupportedFormat) => true
    case (InternalFailure, InternalFailure) => true
    case (WorkerPanic, WorkerPanic) => true
    case (DeviceUnavailable(expected), DeviceUnavailable(actual)) => expected == actual
    case (SourceReconfigured(expected), SourceReconfigured(actual)) => expected == actual
    case (_, _) => false
  }

  function EvaluateAdditionalEvidence(requirement: EvidenceRequirement, e: RecoveryEvidence): Option<RecoveryDecision> {
    var (value, pending) :=
      match requirement
      case NeedsSourceAvailable => (e.sourceAvailable, SourceUnavailable)
      case NeedsSupportedFormat => (e.supportedFormatAvailable, SupportedFormatUnavailable)
      case NeedsPressureCleared => (e.pressureCleared, PressureClearancePending)
      case NeedsChangedPrecondition => (e.changedPrecondition, ChangedPreconditionPending);
    if value.None? then Some(MISSING)
    else if !value.value then Some(Wait(pending))
    else None
  }

  function AutomaticAttempts(s: T.RetrySnapshot): u64 {
    match s.episode
    case Some(episode) => episode.automaticAttemptsStarted
    case None => 0
  }

  predicate AttemptsRemain(configuration: ConfigurationSnapshot, s: T.RetrySnapshot) {
    && (s.episode.None? || s.episode.value.exhaustion.None?)
    && AutomaticAttempts(s) < configuration.configuration.budget.maximumAutomaticAttempts
  }

  predicate CooldownIsComplete(configuration: ConfigurationSnapshot, s: T.RetrySnapshot) {
    var delayRequired :=
      configuration.configuration.cooldown.CooldownRequired? || configuration.configuration.backoff.BackoffRequired?;
    !delayRequired || s.cooldown.Satisfied?
  }

  function EvaluateRecoveryPolicy(
    configuration: ConfigurationSnapshot,
    currentConfigurationId: T.ConfigurationIdentity,
    s: T.RetrySnapshot,
    context: RecoveryContext,
    cause: RecoveryCause,
    e: RecoveryEvidence): RecoveryDecision
  {
    if !context.desiredRunning || cause.ExplicitStop? then RemainStopped(BecauseExplicitStop)
    else if context.evaluatedGeneration != context.currentGeneration then RemainStopped(StaleIntent)
    else if configuration.identity != currentConfigurationId || s.configurationId != configuration.identity then
      RemainStopped(StaleConfiguration)
    else if s.desiredRunning != context.desiredRunning || s.generation != context.evaluatedGeneration then
      RemainStopped(InconsistentEvidence)
    else
      match EvaluateCommonPreconditions(context, cause, e)
      case Some(decision) => decision
      case None =>
        match s.lastFailure
        case None => EvaluateRecovery(context, cause, e)
        case Some(failure) =>
          if !CauseMatchesFailure(cause, failure.cause) then RemainStopped(InconsistentEvidence)
          else EvaluateFailure(configuration, s, context, cause, e, failure)
  }

  /** The failure is the one recorded; classification, budget and delay are decided before the cause is. */
  function EvaluateFailure(
    configuration: ConfigurationSnapshot,
    s: T.RetrySnapshot,
    context: RecoveryContext,
    cause: RecoveryCause,
    e: RecoveryEvidence,
    failure: T.FailureRecord): RecoveryDecision
  {
    var disposition := configuration.configuration.Disposition(T.ClassOf(failure.cause));
    if disposition.NonRetryable? then RemainStopped(ConfiguredNonRetryable)
    else if RetryVeto(e.retryHint).Some? then RetryVeto(e.retryHint).value
    else if !AttemptsRemain(configuration, s) then RemainStopped(RetryBudgetExhausted)
    else if !CooldownIsComplete(configuration, s) then Wait(CooldownPending)
    else
      var filled := e.(attemptsRemaining := Some(true), cooldownComplete := Some(true));
      if disposition.AdditionalEvidenceRequired?
         && EvaluateAdditionalEvidence(disposition.requirement, filled).Some? then
        EvaluateAdditionalEvidence(disposition.requirement, filled).value
      else EvaluateRecovery(context, cause, filled)
  }

  // ----- when replacement is permitted -----

  predicate LifecycleIsComplete(e: RecoveryEvidence) {
    && e.streamStarted.Some?
    && Yes(e.ownerCompleted)
    && Yes(e.resourcesReleased)
    && (if e.streamStarted.value then Yes(e.terminalEventDelivered) else !Yes(e.terminalEventDelivered))
  }

  /** The only causes that can ever be retried, with the hint and the evidence each one demands. */
  predicate CausePermits(cause: RecoveryCause, e: RecoveryEvidence) {
    && Yes(e.attemptsRemaining)
    && e.retryHint.Some? && !Says(e.retryHint, DoNotRetry)
    && match cause
       case DeviceUnavailable(_) =>
         Says(e.retryHint, WaitForSource) && e.sourcePolicy.Some? && Yes(e.sourceAvailable)
       case SourceReconfigured(DefaultEndpointChanged) =>
         e.sourcePolicy.Some? && e.sourcePolicy.value.FollowDefault? && Yes(e.replacementSourceResolved)
       case SourceReconfigured(FormatChanged) => Yes(e.supportedFormatAvailable)
       case Interrupted =>
         Says(e.retryHint, RetryNow) || (Says(e.retryHint, RetryLater) && Yes(e.cooldownComplete))
       case ResourceExhausted =>
         Says(e.retryHint, RetryLater) && Yes(e.cooldownComplete) && Yes(e.pressureCleared)
       case _ => false
  }

  predicate RequirementHolds(requirement: EvidenceRequirement, e: RecoveryEvidence) {
    match requirement
    case NeedsSourceAvailable => Yes(e.sourceAvailable)
    case NeedsSupportedFormat => Yes(e.supportedFormatAvailable)
    case NeedsPressureCleared => Yes(e.pressureCleared)
    case NeedsChangedPrecondition => Yes(e.changedPrecondition)
  }

  predicate FailurePermits(
    configuration: ConfigurationSnapshot, s: T.RetrySnapshot, failure: T.FailureCause, e: RecoveryEvidence)
  {
    var disposition := configuration.configuration.Disposition(T.ClassOf(failure));
    && !disposition.NonRetryable?
    && AttemptsRemain(configuration, s)
    && CooldownIsComplete(configuration, s)
    && (disposition.AdditionalEvidenceRequired? ==> RequirementHolds(disposition.requirement, e))
    && CausePermits(CauseOf(failure), e.(attemptsRemaining := Some(true), cooldownComplete := Some(true)))
  }

  lemma CauseMatchesIff(cause: RecoveryCause, failure: T.FailureCause)
    ensures CauseMatchesFailure(cause, failure) <==> cause == CauseOf(failure)
  {
  }

  lemma CauseDecidesIff(context: RecoveryContext, cause: RecoveryCause, e: RecoveryEvidence)
    requires EvaluateCommonPreconditions(context, cause, e).None?
    ensures EvaluateRecovery(context, cause, e).PermitReplacement? <==> CausePermits(cause, e)
  {
  }

  lemma PreconditionsIff(context: RecoveryContext, cause: RecoveryCause, e: RecoveryEvidence)
    ensures EvaluateCommonPreconditions(context, cause, e).None? <==>
            context.desiredRunning && !cause.ExplicitStop?
            && context.evaluatedGeneration == context.currentGeneration && LifecycleIsComplete(e)
    ensures EvaluateCommonPreconditions(context, cause, e).Some? ==>
              !EvaluateCommonPreconditions(context, cause, e).value.PermitReplacement?
  {
  }

  lemma FailureDecidesIff(
    configuration: ConfigurationSnapshot, s: T.RetrySnapshot, context: RecoveryContext, cause: RecoveryCause,
    e: RecoveryEvidence, failure: T.FailureRecord)
    requires EvaluateCommonPreconditions(context, cause, e).None?
    requires cause == CauseOf(failure.cause)
    ensures EvaluateFailure(configuration, s, context, cause, e, failure).PermitReplacement? <==>
            FailurePermits(configuration, s, failure.cause, e)
  {
    var filled := e.(attemptsRemaining := Some(true), cooldownComplete := Some(true));
    PreconditionsIff(context, cause, e);
    PreconditionsIff(context, cause, filled);
    CauseDecidesIff(context, cause, filled);
  }

  /** Exactly when the policy permits a replacement: nothing stale, nothing missing, budget and delay included. */
  lemma PermitIff(
    configuration: ConfigurationSnapshot, currentConfigurationId: T.ConfigurationIdentity, s: T.RetrySnapshot,
    context: RecoveryContext, cause: RecoveryCause, e: RecoveryEvidence)
    ensures EvaluateRecoveryPolicy(configuration, currentConfigurationId, s, context, cause, e).PermitReplacement? <==>
            && context.desiredRunning && s.desiredRunning
            && s.generation == context.evaluatedGeneration == context.currentGeneration
            && s.configurationId == configuration.identity == currentConfigurationId
            && LifecycleIsComplete(e)
            && (match s.lastFailure
                case Some(failure) =>
                  cause == CauseOf(failure.cause) && FailurePermits(configuration, s, failure.cause, e)
                case None => CausePermits(cause, e))
  {
    PreconditionsIff(context, cause, e);
    match s.lastFailure
    case None =>
      if EvaluateCommonPreconditions(context, cause, e).None? {
        CauseDecidesIff(context, cause, e);
      }
    case Some(failure) =>
      CauseMatchesIff(cause, failure.cause);
      if EvaluateCommonPreconditions(context, cause, e).None? && cause == CauseOf(failure.cause) {
        FailureDecidesIff(configuration, s, context, cause, e, failure);
      }
  }
}
