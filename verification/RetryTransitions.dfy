/**
 Retry state of one capture supervisor (crates/resonance-agent/src/retry_state.rs).

 `RetryFacts` is the value of the state; one function per transition says what the
 transition yields, or with which error it is rejected.
 */
module RetryTransitions {
  import opened Base
  import RecoveryTypes

  datatype ConfigurationIdentity =
    ConfigurationIdentity(schemaVersion: u16, version: u64, fingerprint: nat)

  datatype AttemptId = AttemptId(generation: u64, ordinal: u64)

  datatype AttemptKind = InitialStart | AutomaticRecovery

  datatype AttemptLifecycle = Committed | OwnerCreated | Running | Failed | Completed | CleanupComplete

  datatype RetryPhase = Idle | Attempting | Running | Failed | Waiting | Exhausted | Stopped

  datatype FailureCause =
    | OwnerConstructionFailure
    | DeviceUnavailable(device: RecoveryTypes.DeviceUnavailableCause)
    | SourceReconfigured(source: RecoveryTypes.SourceReconfigurationCause)
    | Interrupted
    | ResourceExhausted
    | UnsupportedFormat
    | InternalFailure
    | StartupFailure
    | WorkerPanic

  datatype AttemptState = AttemptState(
    id: AttemptId,
    kind: AttemptKind,
    lifecycle: AttemptLifecycle,
    streamStarted: bool,
    terminalEventDelivered: bool,
    resourcesReleased: bool,
    failure: Option<FailureCause>)
  {
    predicate ReadyForEvaluation() {
      failure.Some? && resourcesReleased && (!streamStarted || terminalEventDelivered)
    }
  }

  datatype EpisodeId = EpisodeId(generation: u64, ordinal: u64)

  datatype ExhaustionReason = AutomaticRecoveryBudget | PolicyVeto

  datatype ExhaustionRecord = ExhaustionRecord(
    generation: u64,
    episode: EpisodeId,
    evaluatedRevision: u64,
    attemptId: AttemptId,
    reason: ExhaustionReason,
    configurationId: ConfigurationIdentity)

  datatype EpisodeState =
    EpisodeState(id: EpisodeId, automaticAttemptsStarted: u64, exhaustion: Option<ExhaustionRecord>)

  datatype CooldownRequirement = CooldownRequirement(attemptId: AttemptId, marker: u64)

  datatype CooldownState =
    | NotRequired
    | Pending(requirement: CooldownRequirement)
    | Satisfied(requirement: CooldownRequirement, evidence: u64)
    | Invalidated(requirement: CooldownRequirement)
  {
    predicate PermitsProgression() {
      NotRequired? || Satisfied?
    }
  }

  datatype FailureRecord =
    FailureRecord(attemptId: AttemptId, episode: EpisodeId, cause: FailureCause, streamStarted: bool)

  datatype FailureClass =
    | ClassOwnerConstruction | ClassDeviceUnavailable | ClassSourceReconfigured
    | ClassInterrupted | ClassResourceExhausted | ClassUnsupportedFormat
    | ClassInternal | ClassStartup | ClassWorkerPanic

  function ClassOf(cause: FailureCause): FailureClass {
    match cause
    case OwnerConstructionFailure => ClassOwnerConstruction
    case DeviceUnavailable(_) => ClassDeviceUnavailable
    case SourceReconfigured(_) => ClassSourceReconfigured
    case Interrupted => ClassInterrupted
    case ResourceExhausted => ClassResourceExhausted
    case UnsupportedFormat => ClassUnsupportedFormat
    case InternalFailure => ClassInternal
    case StartupFailure => ClassStartup
    case WorkerPanic => ClassWorkerPanic
  }

  datatype FailureTotals = FailureTotals(
    total: u64,
    ownerConstructionFailure: u64,
    deviceUnavailable: u64,
    sourceReconfigured: u64,
    interrupted: u64,
    resourceExhausted: u64,
    unsupportedFormat: u64,
    internalFailure: u64,
    startupFailure: u64,
    workerPanic: u64)
  {
    function Of(class_: FailureClass): u64 {
      match class_
      case ClassOwnerConstruction => ownerConstructionFailure
      case ClassDeviceUnavailable => deviceUnavailable
      case ClassSourceReconfigured => sourceReconfigured
      case ClassInterrupted => interrupted
      case ClassResourceExhausted => resourceExhausted
      case ClassUnsupportedFormat => unsupportedFormat
      case ClassInternal => internalFailure
      case ClassStartup => startupFailure
      case ClassWorkerPanic => workerPanic
    }

    function With(class_: FailureClass, count: u64): FailureTotals {
      match class_
      case ClassOwnerConstruction => this.(ownerConstructionFailure := count)
      case ClassDeviceUnavailable => this.(deviceUnavailable := count)
      case ClassSourceReconfigured => this.(sourceReconfigured := count)
      case ClassInterrupted => this.(interrupted := count)
      case ClassResourceExhausted => this.(resourceExhausted := count)
      case ClassUnsupportedFormat => this.(unsupportedFormat := count)
      case ClassInternal => this.(internalFailure := count)
      case ClassStartup => this.(startupFailure := count)
      case ClassWorkerPanic => this.(workerPanic := count)
    }

    function CheckedWithRecord(cause: FailureCause): Result<FailureTotals, RetryError> {
      var newTotal :- CheckedAdd(total, 1, CounterExhausted);
      var newCount :- CheckedAdd(Of(ClassOf(cause)), 1, CounterExhausted);
      Ok(this.(total := newTotal).With(ClassOf(cause), newCount))
    }
  }

  const NO_FAILURES := FailureTotals(0, 0, 0, 0, 0, 0, 0, 0, 0, 0)

  datatype ResetEvidence = StableRun(id: u64) | ChangedPrecondition(id: u64)

  /** Owned immutable input of one policy evaluation. */
  datatype RetrySnapshot = RetrySnapshot(
    desiredRunning: bool,
    generation: u64,
    revision: u64,
    configurationId: ConfigurationIdentity,
    phase: RetryPhase,
    attemptsStarted: u64,
    currentAttempt: Option<AttemptState>,
    episode: Option<EpisodeState>,
    lastFailure: Option<FailureRecord>,
    recentFailures: seq<FailureRecord>,
    failureTotals: FailureTotals,
    consecutiveFailedAttempts: u64,
    cooldown: CooldownState)
  {
    /** Binds only a permit decision to the facts it evaluated. */
    function Authorize(decision: RecoveryTypes.RecoveryDecision): Result<RecoveryAuthorization, RetryError> {
      if decision.PermitReplacement? then
        Ok(RecoveryAuthorization(generation, revision, configurationId,
                                 EpisodeIdOf(episode), AttemptIdOf(currentAttempt), decision.reason))
      else
        Err(DecisionDoesNotPermitRecovery)
    }
  }

  datatype RecoveryAuthorization = RecoveryAuthorization(
    generation: u64,
    revision: u64,
    configurationId: ConfigurationIdentity,
    episode: Option<EpisodeId>,
    priorAttemptId: Option<AttemptId>,
    reason: RecoveryTypes.RecoveryDecisionReason)

  datatype RetryError =
    | HistoryCapacityZero
    | NoActiveIntent
    | IntentAlreadyRunning
    | StaleIntent(currentGeneration: u64, suppliedGeneration: u64)
    | StaleSnapshot
    | DecisionDoesNotPermitRecovery
    | InvalidPhase(phase: RetryPhase)
    | NoCurrentAttempt
    | AttemptMismatch(current: AttemptId, supplied: AttemptId)
    | InvalidAttemptLifecycle(lifecycle: AttemptLifecycle)
    | FailureAlreadyRecorded
    | TerminalEventNotApplicable
    | CleanupPending
    | TerminalEvidencePending
    | NoRecoveryEpisode
    | EpisodeExhausted
    | CooldownPending
    | CooldownEvidenceMismatch
    | InvalidEpisodeResetEvidence
    | CounterExhausted

  function EpisodeIdOf(episode: Option<EpisodeState>): Option<EpisodeId> {
    match episode
    case Some(e) => Some(e.id)
    case None => None
  }

  function AttemptIdOf(attempt: Option<AttemptState>): Option<AttemptId> {
    match attempt
    case Some(a) => Some(a.id)
    case None => None
  }

  datatype RetryFacts = RetryFacts(
    lastGeneration: u64,
    generation: Option<u64>,
    revision: u64,
    configurationId: Option<ConfigurationIdentity>,
    desiredRunning: bool,
    phase: RetryPhase,
    attemptsStarted: u64,
    currentAttempt: Option<AttemptState>,
    episode: Option<EpisodeState>,
    lastFailure: Option<FailureRecord>,
    recentFailures: seq<FailureRecord>,
    failureTotals: FailureTotals,
    consecutiveFailedAttempts: u64,
    cooldown: CooldownState)
  {
    predicate EpisodeIsExhausted() {
      episode.Some? && episode.value.exhaustion.Some?
    }
  }

  const INITIAL_FACTS := RetryFacts(
    0, None, 0, None, false, RetryPhase.Idle, 0, None, None, None, [], NO_FAILURES, 0, NotRequired)

  /** A transition yields the next facts and a result, or is rejected. */
  type Outcome<T> = Result<(RetryFacts, T), RetryError>

  // ----- guards -----

  function RequireGeneration(s: RetryFacts, supplied: u64): Result<(), RetryError> {
    var current :- OkOr(s.generation, NoActiveIntent);
    Require(current == supplied, StaleIntent(current, supplied))
  }

  function RequireCurrentSnapshot(s: RetryFacts, evaluated: RetrySnapshot): Result<(), RetryError> {
    var current :- OkOr(s.generation, NoActiveIntent);
    Require(
      && evaluated.generation == current
      && evaluated.revision == s.revision
      && Some(evaluated.configurationId) == s.configurationId
      && EpisodeIdOf(evaluated.episode) == EpisodeIdOf(s.episode)
      && AttemptIdOf(evaluated.currentAttempt) == AttemptIdOf(s.currentAttempt),
      StaleSnapshot)
  }

  function RequireCurrentAuthorization(s: RetryFacts, authorization: RecoveryAuthorization): Result<(), RetryError> {
    var current :- OkOr(s.generation, NoActiveIntent);
    Require(
      && authorization.generation == current
      && authorization.revision == s.revision
      && Some(authorization.configurationId) == s.configurationId
      && authorization.episode == EpisodeIdOf(s.episode)
      && authorization.priorAttemptId == AttemptIdOf(s.currentAttempt),
      StaleSnapshot)
  }

  function RequireAttempt(s: RetryFacts, supplied: AttemptId): Result<AttemptState, RetryError> {
    var current :- OkOr(s.currentAttempt, NoCurrentAttempt);
    if current.id != supplied then Err(AttemptMismatch(current.id, supplied)) else Ok(current)
  }

  function NextRevision(s: RetryFacts): Result<u64, RetryError> {
    CheckedAdd(s.revision, 1, CounterExhausted)
  }

  /** Failure evidence is complete: the phase becomes Waiting unless stopped or exhausted. */
  function RefreshPostFailurePhase(s: RetryFacts): RetryFacts {
    if !s.desiredRunning || s.phase == RetryPhase.Exhausted then s
    else if s.currentAttempt.Some? && s.currentAttempt.value.ReadyForEvaluation() then
      s.(phase := RetryPhase.Waiting,
         currentAttempt := Some(s.currentAttempt.value.(lifecycle := AttemptLifecycle.CleanupComplete)))
    else s
  }

  // ----- transitions -----

  function ExplicitStart(s: RetryFacts, configurationId: ConfigurationIdentity): Outcome<u64> {
    var _ :- Require(!s.desiredRunning, IntentAlreadyRunning);
    var _ :- Require(s.currentAttempt.None? || s.currentAttempt.value.resourcesReleased, CleanupPending);
    var generation :- CheckedAdd(s.lastGeneration, 1, CounterExhausted);
    Ok((INITIAL_FACTS.(lastGeneration := generation, generation := Some(generation), revision := 1,
                       configurationId := Some(configurationId), desiredRunning := true),
        generation))
  }

  function ExplicitStop(s: RetryFacts, generation: u64): Outcome<()> {
    var _ :- RequireGeneration(s, generation);
    var revision :- NextRevision(s);
    var cooldown :=
      if s.cooldown.Pending? || s.cooldown.Satisfied? then Invalidated(s.cooldown.requirement) else s.cooldown;
    Ok((s.(desiredRunning := false, phase := RetryPhase.Stopped, cooldown := cooldown, revision := revision), ()))
  }

  function CommitInitialAttempt(s: RetryFacts, generation: u64): Outcome<AttemptId> {
    var _ :- RequireGeneration(s, generation);
    var _ :- Require(s.desiredRunning && s.phase == RetryPhase.Idle, InvalidPhase(s.phase));
    CommitAttempt(s, InitialStart)
  }

  function CommitRecoveryAttempt(s: RetryFacts, authorization: RecoveryAuthorization): Outcome<AttemptId> {
    var _ :- RequireCurrentAuthorization(s, authorization);
    var _ :- Require(!s.EpisodeIsExhausted(), EpisodeExhausted);
    var attempt :- OkOr(s.currentAttempt, NoCurrentAttempt);
    var _ :- Require(attempt.resourcesReleased, CleanupPending);
    var _ :- Require(!attempt.streamStarted || attempt.terminalEventDelivered, TerminalEvidencePending);
    var _ :- Require(s.desiredRunning && s.phase == RetryPhase.Waiting, InvalidPhase(s.phase));
    var episode :- OkOr(s.episode, NoRecoveryEpisode);
    var _ :- Require(s.cooldown.PermitsProgression(), CooldownPending);
    CommitAttempt(s, AutomaticRecovery)
  }

  function CommitAttempt(s: RetryFacts, kind: AttemptKind): Outcome<AttemptId> {
    var generation :- OkOr(s.generation, NoActiveIntent);
    var attemptsStarted :- CheckedAdd(s.attemptsStarted, 1, CounterExhausted);
    var episode :- (
      if kind == AutomaticRecovery then
        var e :- OkOr(s.episode, NoRecoveryEpisode);
        var started :- CheckedAdd(e.automaticAttemptsStarted, 1, CounterExhausted);
        Ok(Some(e.(automaticAttemptsStarted := started)))
      else Ok(s.episode));
    var revision :- NextRevision(s);
    var id := AttemptId(generation, attemptsStarted);
    Ok((s.(episode := episode,
           attemptsStarted := attemptsStarted,
           currentAttempt := Some(AttemptState(id, kind, Committed, false, false, false, None)),
           phase := Attempting,
           cooldown := NotRequired,
           revision := revision),
        id))
  }

  function RecordOwnerCreated(s: RetryFacts, attemptId: AttemptId): Outcome<()> {
    var revision :- NextRevision(s);
    var attempt :- RequireAttempt(s, attemptId);
    var _ :- Require(attempt.lifecycle == Committed, InvalidAttemptLifecycle(attempt.lifecycle));
    Ok((s.(currentAttempt := Some(attempt.(lifecycle := OwnerCreated)), revision := revision), ()))
  }

  function RecordStreamStarted(s: RetryFacts, attemptId: AttemptId): Outcome<()> {
    var revision :- NextRevision(s);
    var attempt :- RequireAttempt(s, attemptId);
    var _ :- Require(attempt.lifecycle == OwnerCreated, InvalidAttemptLifecycle(attempt.lifecycle));
    Ok((s.(currentAttempt := Some(attempt.(lifecycle := AttemptLifecycle.Running, streamStarted := true)),
           phase := if s.desiredRunning then RetryPhase.Running else s.phase,
           revision := revision), ()))
  }

  function RecordNormalCompletion(s: RetryFacts, attemptId: AttemptId): Outcome<()> {
    var revision :- NextRevision(s);
    var attempt :- RequireAttempt(s, attemptId);
    var _ :- Require(
               attempt.failure.None? && attempt.lifecycle in {OwnerCreated, AttemptLifecycle.Running},
               InvalidAttemptLifecycle(attempt.lifecycle));
    Ok((s.(currentAttempt := Some(attempt.(lifecycle := Completed)), revision := revision), ()))
  }

  /** The history keeps the newest `capacity` records. */
  function PushRecent(capacity: nat, recent: seq<FailureRecord>, record: FailureRecord): seq<FailureRecord> {
    (if |recent| == capacity && recent != [] then recent[1..] else recent) + [record]
  }

  /** The episode a failure counts against: the first one of the intent begins with its first failure. */
  function ChargedEpisode(s: RetryFacts): Result<EpisodeState, RetryError> {
    if s.episode.Some? then Ok(s.episode.value)
    else
      var generation :- OkOr(s.generation, NoActiveIntent);
      Ok(EpisodeState(EpisodeId(generation, 1), 0, None))
  }

  function RecordFailure(capacity: nat, s: RetryFacts, attemptId: AttemptId, cause: FailureCause): Outcome<()> {
    var attempt :- RequireAttempt(s, attemptId);
    var _ :- Require(attempt.failure.None?, FailureAlreadyRecorded);
    var _ :- Require(attempt.lifecycle in {Committed, OwnerCreated, AttemptLifecycle.Running},
                     InvalidAttemptLifecycle(attempt.lifecycle));
    var episode :- ChargedEpisode(s);
    var record := FailureRecord(attemptId, episode.id, cause, attempt.streamStarted);
    var totals :- s.failureTotals.CheckedWithRecord(cause);
    var consecutive :- CheckedAdd(s.consecutiveFailedAttempts, 1, CounterExhausted);
    var revision :- NextRevision(s);
    Ok((RefreshPostFailurePhase(
          s.(episode := Some(episode),
             failureTotals := totals,
             consecutiveFailedAttempts := consecutive,
             recentFailures := PushRecent(capacity, s.recentFailures, record),
             lastFailure := Some(record),
             currentAttempt := Some(attempt.(failure := Some(cause), lifecycle := AttemptLifecycle.Failed)),
             phase := if s.desiredRunning then RetryPhase.Failed else s.phase,
             revision := revision)), ()))
  }

  function RecordTerminalEventDelivered(s: RetryFacts, attemptId: AttemptId): Outcome<()> {
    var revision :- NextRevision(s);
    var attempt :- RequireAttempt(s, attemptId);
    var _ :- Require(
               attempt.streamStarted
               && attempt.lifecycle in {AttemptLifecycle.Running, AttemptLifecycle.Failed, Completed},
               TerminalEventNotApplicable);
    Ok((RefreshPostFailurePhase(
          s.(currentAttempt := Some(attempt.(terminalEventDelivered := true)), revision := revision)), ()))
  }

  function RecordCleanupComplete(s: RetryFacts, attemptId: AttemptId): Outcome<()> {
    var revision :- NextRevision(s);
    var attempt :- RequireAttempt(s, attemptId);
    var settled :=
      || attempt.lifecycle == Completed
      || (attempt.failure.Some? && (!attempt.streamStarted || attempt.terminalEventDelivered))
      || !s.desiredRunning;
    var released := attempt.(resourcesReleased := true,
                             lifecycle := if settled then CleanupComplete else attempt.lifecycle);
    Ok((RefreshPostFailurePhase(s.(currentAttempt := Some(released), revision := revision)), ()))
  }

  function RequireCooldown(s: RetryFacts, evaluated: RetrySnapshot, marker: u64): Outcome<()> {
    var _ :- RequireCurrentSnapshot(s, evaluated);
    var _ :- Require(s.phase == RetryPhase.Waiting, InvalidPhase(s.phase));
    var revision :- NextRevision(s);
    var attempt :- OkOr(s.currentAttempt, NoCurrentAttempt);
    Ok((s.(cooldown := Pending(CooldownRequirement(attempt.id, marker)), revision := revision), ()))
  }

  function SatisfyCooldown(s: RetryFacts, generation: u64, marker: u64, evidence: u64): Outcome<()> {
    var _ :- RequireGeneration(s, generation);
    var _ :- Require(s.cooldown.Pending? && s.cooldown.requirement.marker == marker, CooldownEvidenceMismatch);
    var revision :- NextRevision(s);
    Ok((s.(cooldown := Satisfied(s.cooldown.requirement, evidence), revision := revision), ()))
  }

  function MarkExhausted(s: RetryFacts, evaluated: RetrySnapshot, reason: ExhaustionReason): Outcome<()> {
    var _ :- RequireCurrentSnapshot(s, evaluated);
    var _ :- Require(!s.EpisodeIsExhausted(), EpisodeExhausted);
    var _ :- Require(s.phase == RetryPhase.Waiting, InvalidPhase(s.phase));
    var revision :- NextRevision(s);
    var attempt :- OkOr(s.currentAttempt, NoCurrentAttempt);
    var configurationId :- OkOr(s.configurationId, NoActiveIntent);
    var episode :- OkOr(s.episode, NoRecoveryEpisode);
    var record := ExhaustionRecord(
      evaluated.generation, episode.id, evaluated.revision, attempt.id, reason, configurationId);
    Ok((s.(episode := Some(episode.(exhaustion := Some(record))),
           phase := RetryPhase.Exhausted,
           revision := revision), ()))
  }

  predicate ValidReset(phase: RetryPhase, evidence: ResetEvidence) {
    || (phase == RetryPhase.Running && evidence.StableRun?)
    || (phase in {RetryPhase.Waiting, RetryPhase.Exhausted} && evidence.ChangedPrecondition?)
  }

  function AdvanceRecoveryEpisode(s: RetryFacts, generation: u64, evidence: ResetEvidence): Outcome<EpisodeId> {
    var _ :- RequireGeneration(s, generation);
    var _ :- Require(ValidReset(s.phase, evidence), InvalidEpisodeResetEvidence);
    var _ :- Require(
               s.currentAttempt.None? || s.currentAttempt.value.failure.None?
               || s.currentAttempt.value.ReadyForEvaluation(),
               CleanupPending);
    var previous :- OkOr(s.episode, NoRecoveryEpisode);
    var ordinal :- CheckedAdd(previous.id.ordinal, 1, CounterExhausted);
    var revision :- NextRevision(s);
    var id := EpisodeId(generation, ordinal);
    Ok((s.(episode := Some(EpisodeState(id, 0, None)),
           consecutiveFailedAttempts := 0,
           cooldown := NotRequired,
           phase := if s.phase == RetryPhase.Exhausted then RetryPhase.Waiting else s.phase,
           revision := revision), id))
  }

  function Snapshot(s: RetryFacts): Result<RetrySnapshot, RetryError> {
    var generation :- OkOr(s.generation, NoActiveIntent);
    var configurationId :- OkOr(s.configurationId, NoActiveIntent);
    Ok(RetrySnapshot(s.desiredRunning, generation, s.revision, configurationId, s.phase, s.attemptsStarted,
                     s.currentAttempt, s.episode, s.lastFailure, s.recentFailures, s.failureTotals,
                     s.consecutiveFailedAttempts, s.cooldown))
  }

  /** A method call realizes an outcome: same result, and a rejection changes nothing. */
  ghost predicate Realizes<T>(outcome: Outcome<T>, before: RetryFacts, after: RetryFacts, r: Result<T, RetryError>) {
    match outcome
    case Ok((next, value)) => after == next && r == Ok(value)
    case Err(error) => after == before && r == Err(error)
  }
}
