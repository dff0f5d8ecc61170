/** The retry state object a supervisor updates in place (crates/resonance-agent/src/retry_state.rs). */
module Retry {
  import opened Base
  import opened RetryTransitions

  import T = RetryTransitions

  /** Every method realizes the transition function of its name: same result, and a rejection changes nothing. */
  class RetryState {
    const capacity: nat
    var lastGeneration: u64
    var generation: Option<u64>
    var revision: u64
    var configurationId: Option<ConfigurationIdentity>
    var desiredRunning: bool
    var phase: RetryPhase
    var attemptsStarted: u64
    var currentAttempt: Option<AttemptState>
    var episode: Option<EpisodeState>
    var lastFailure: Option<FailureRecord>
    var recentFailures: seq<FailureRecord>
    var failureTotals: FailureTotals
    var consecutiveFailedAttempts: u64
    var cooldown: CooldownState

    function Facts(): RetryFacts
      reads this
    {
      RetryFacts(lastGeneration, generation, revision, configurationId, desiredRunning, phase, attemptsStarted,
                 currentAttempt, episode, lastFailure, recentFailures, failureTotals,
                 consecutiveFailedAttempts, cooldown)
    }

    constructor (capacity: nat)
      ensures this.capacity == capacity && Facts() == INITIAL_FACTS
    {
      this.capacity := capacity;
      lastGeneration, generation, revision, configurationId := 0, None, 0, None;
      desiredRunning, phase, attemptsStarted := false, RetryPhase.Idle, 0;
      currentAttempt, episode, lastFailure, recentFailures := None, None, None, [];
      failureTotals, consecutiveFailedAttempts, cooldown := NO_FAILURES, 0, NotRequired;
    }

    /** A history that keeps nothing is refused. */
    static method New(capacity: nat) returns (r: Result<RetryState, RetryError>)
      ensures capacity == 0 ==> r == Err(HistoryCapacityZero)
      ensures capacity > 0 ==>
                r.Ok? && fresh(r.value) && r.value.capacity == capacity && r.value.Facts() == INITIAL_FACTS
    {
      if capacity == 0 {
        return Err(HistoryCapacityZero);
      }
      var state := new RetryState(capacity);
      return Ok(state);
    }

    method ExplicitStart(configurationId: ConfigurationIdentity) returns (r: Result<u64, RetryError>)
      modifies this
      ensures Realizes(T.ExplicitStart(old(Facts()), configurationId), old(Facts()), Facts(), r)
    {
      if desiredRunning {
        return Err(IntentAlreadyRunning);
      }
      if currentAttempt.Some? && !currentAttempt.value.resourcesReleased {
        return Err(CleanupPending);
      }
      var next :- CheckedAdd(lastGeneration, 1, CounterExhausted);
      ForgetPreviousIntent();
      lastGeneration := next;
      generation := Some(next);
      revision := 1;
      this.configurationId := Some(configurationId);
      desiredRunning := true;
      return Ok(next);
    }

    /** Clears everything that belongs to the attempts of an earlier intent. */
    method ForgetPreviousIntent()
      modifies `phase, `attemptsStarted, `currentAttempt, `episode, `lastFailure, `recentFailures, `failureTotals,
               `consecutiveFailedAttempts, `cooldown
      ensures Facts() == old(Facts()).(phase := RetryPhase.Idle, attemptsStarted := 0, currentAttempt := None,
                                       episode := None, lastFailure := None, recentFailures := [], failureTotals := NO_FAILURES,
                                       consecutiveFailedAttempts := 0, cooldown := NotRequired)
    {
      phase := RetryPhase.Idle;
      attemptsStarted := 0;
      currentAttempt := None;
      episode := None;
      cooldown := NotRequired;
      ForgetFailures();
    }

    method ForgetFailures()
      modifies `lastFailure, `recentFailures, `failureTotals, `consecutiveFailedAttempts
      ensures lastFailure == None && recentFailures == [] && failureTotals == NO_FAILURES
      ensures consecutiveFailedAttempts == 0
    {
      lastFailure := None;
      recentFailures := [];
      failureTotals := NO_FAILURES;
      consecutiveFailedAttempts := 0;
    }

    method ExplicitStop(stopped: u64) returns (r: Result<(), RetryError>)
      modifies this
      ensures Realizes(T.ExplicitStop(old(Facts()), stopped), old(Facts()), Facts(), r)
    {
      var _ :- RequireGeneration(Facts(), stopped);
      var nextRevision :- NextRevision(Facts());
      desiredRunning := false;
      phase := RetryPhase.Stopped;
      if cooldown.Pending? || cooldown.Satisfied? {
        cooldown := Invalidated(cooldown.requirement);
      }
      revision := nextRevision;
      return Ok(());
    }

    method CommitInitialAttempt(supplied: u64) returns (r: Result<AttemptId, RetryError>)
      modifies this
      ensures Realizes(T.CommitInitialAttempt(old(Facts()), supplied), old(Facts()), Facts(), r)
    {
      var _ :- RequireGeneration(Facts(), supplied);
      if !desiredRunning || phase != RetryPhase.Idle {
        return Err(InvalidPhase(phase));
      }
      r := CommitAttempt(InitialStart);
    }

    method CommitRecoveryAttempt(authorization: RecoveryAuthorization) returns (r: Result<AttemptId, RetryError>)
      modifies this
      ensures Realizes(T.CommitRecoveryAttempt(old(Facts()), authorization), old(Facts()), Facts(), r)
    {
      var _ :- RequireCurrentAuthorization(Facts(), authorization);
      if episode.Some? && episode.value.exhaustion.Some? {
        return Err(EpisodeExhausted);
      }
      var attempt :- OkOr(currentAttempt, NoCurrentAttempt);
      if !attempt.resourcesReleased {
        return Err(CleanupPending);
      }
      if attempt.streamStarted && !attempt.terminalEventDelivered {
        return Err(TerminalEvidencePending);
      }
      if !desiredRunning || phase != RetryPhase.Waiting {
        return Err(InvalidPhase(phase));
      }
      var _ :- OkOr(episode, NoRecoveryEpisode);
      if !cooldown.PermitsProgression() {
        return Err(CooldownPending);
      }
      r := CommitAttempt(AutomaticRecovery);
    }

    method CommitAttempt(kind: AttemptKind) returns (r: Result<AttemptId, RetryError>)
      modifies this
      ensures Realizes(T.CommitAttempt(old(Facts()), kind), old(Facts()), Facts(), r)
    {
      var current :- OkOr(generation, NoActiveIntent);
      var started :- CheckedAdd(attemptsStarted, 1, CounterExhausted);
      var id := AttemptId(current, started);
      var automatic: Option<u64> := None;
      if kind == AutomaticRecovery {
        var charged :- OkOr(episode, NoRecoveryEpisode);
        var count :- CheckedAdd(charged.automaticAttemptsStarted, 1, CounterExhausted);
        automatic := Some(count);
      }
      var nextRevision :- NextRevision(Facts());

      if automatic.Some? {
        episode := Some(episode.value.(automaticAttemptsStarted := automatic.value));
      }
      EnterAttempt(AttemptState(id, kind, Committed, false, false, false, None), started, nextRevision);
      return Ok(id);
    }

    method EnterAttempt(attempt: AttemptState, started: u64, nextRevision: u64)
      modifies `attemptsStarted, `currentAttempt, `phase, `cooldown, `revision
      ensures Facts() == old(Facts()).(attemptsStarted := started, currentAttempt := Some(attempt), phase := Attempting,
                                       cooldown := NotRequired, revision := nextRevision)
    {
      attemptsStarted := started;
      currentAttempt := Some(attempt);
      phase := Attempting;
      cooldown := NotRequired;
      revision := nextRevision;
    }

    method RecordOwnerCreated(attemptId: AttemptId) returns (r: Result<(), RetryError>)
      modifies this
      ensures Realizes(T.RecordOwnerCreated(old(Facts()), attemptId), old(Facts()), Facts(), r)
    {
      var nextRevision :- NextRevision(Facts());
      var attempt :- RequireAttempt(Facts(), attemptId);
      if attempt.lifecycle != Committed {
        return Err(InvalidAttemptLifecycle(attempt.lifecycle));
      }
      currentAttempt := Some(attempt.(lifecycle := OwnerCreated));
      revision := nextRevision;
      return Ok(());
    }

    method RecordStreamStarted(attemptId: AttemptId) returns (r: Result<(), RetryError>)
      modifies this
      ensures Realizes(T.RecordStreamStarted(old(Facts()), attemptId), old(Facts()), Facts(), r)
    {
      var nextRevision :- NextRevision(Facts());
      var attempt :- RequireAttempt(Facts(), attemptId);
      if attempt.lifecycle != OwnerCreated {
        return Err(InvalidAttemptLifecycle(attempt.lifecycle));
      }
      currentAttempt := Some(attempt.(lifecycle := AttemptLifecycle.Running, streamStarted := true));
      if desiredRunning {
        phase := RetryPhase.Running;
      }
      revision := nextRevision;
      return Ok(());
    }

    method RecordNormalCompletion(attemptId: AttemptId) returns (r: Result<(), RetryError>)
      modifies this
      ensures Realizes(T.RecordNormalCompletion(old(Facts()), attemptId), old(Facts()), Facts(), r)
    {
      var nextRevision :- NextRevision(Facts());
      var attempt :- RequireAttempt(Facts(), attemptId);
      if attempt.failure.Some? || !(attempt.lifecycle == OwnerCreated || attempt.lifecycle == AttemptLifecycle.Running) {
        return Err(InvalidAttemptLifecycle(attempt.lifecycle));
      }
      currentAttempt := Some(attempt.(lifecycle := Completed));
      revision := nextRevision;
      return Ok(());
    }

    method RecordFailure(attemptId: AttemptId, cause: FailureCause) returns (r: Result<(), RetryError>)
      modifies this
      ensures Realizes(T.RecordFailure(capacity, old(Facts()), attemptId, cause), old(Facts()), Facts(), r)
    {
      var attempt :- RequireAttempt(Facts(), attemptId);
      if attempt.failure.Some? {
        return Err(FailureAlreadyRecorded);
      }
      if !(attempt.lifecycle == Committed || attempt.lifecycle == OwnerCreated
           || attempt.lifecycle == AttemptLifecycle.Running)
      {
        return Err(InvalidAttemptLifecycle(attempt.lifecycle));
      }
      var charged :- ChargedEpisode(Facts());
      var record := FailureRecord(attemptId, charged.id, cause, attempt.streamStarted);
      var totals :- failureTotals.CheckedWithRecord(cause);
      var consecutive :- CheckedAdd(consecutiveFailedAttempts, 1, CounterExhausted);
      var nextRevision :- NextRevision(Facts());

      ChargeFailure(record, charged, totals, consecutive);
      FailAttempt(attempt, cause, nextRevision);
      return Ok(());
    }

    /** The attempt has failed; while running is desired the phase follows it. */
    method FailAttempt(attempt: AttemptState, cause: FailureCause, nextRevision: u64)
      modifies `currentAttempt, `phase, `revision
      ensures Facts() == T.RefreshPostFailurePhase(
                           old(Facts()).(
                             currentAttempt := Some(attempt.(failure := Some(cause), lifecycle := AttemptLifecycle.Failed)),
                             phase := if old(desiredRunning) then RetryPhase.Failed else old(phase),
                             revision := nextRevision))
    {
      currentAttempt := Some(attempt.(failure := Some(cause), lifecycle := AttemptLifecycle.Failed));
      if desiredRunning {
        phase := RetryPhase.Failed;
      }
      revision := nextRevision;
      RefreshPostFailurePhase();
    }

    /** Retains one failure: the history drops its oldest record when it is full. */
    method ChargeFailure(record: FailureRecord, charged: EpisodeState, totals: FailureTotals, consecutive: u64)
      modifies `episode, `failureTotals, `consecutiveFailedAttempts, `recentFailures, `lastFailure
      ensures Facts() == old(Facts()).(episode := Some(charged), failureTotals := totals,
                                       consecutiveFailedAttempts := consecutive,
                                       recentFailures := PushRecent(capacity, old(recentFailures), record),
                                       lastFailure := Some(record))
    {
      episode := Some(charged);
      failureTotals := totals;
      consecutiveFailedAttempts := consecutive;
      if |recentFailures| == capacity && recentFailures != [] {
        recentFailures := recentFailures[1..];
      }
      recentFailures := recentFailures + [record];
      lastFailure := Some(record);
    }

    method RecordTerminalEventDelivered(attemptId: AttemptId) returns (r: Result<(), RetryError>)
      modifies this
      ensures Realizes(T.RecordTerminalEventDelivered(old(Facts()), attemptId), old(Facts()), Facts(), r)
    {
      var nextRevision :- NextRevision(Facts());
      var attempt :- RequireAttempt(Facts(), attemptId);
      if !attempt.streamStarted
         || !(attempt.lifecycle == AttemptLifecycle.Running || attempt.lifecycle == AttemptLifecycle.Failed
              || attempt.lifecycle == Completed)
      {
        return Err(TerminalEventNotApplicable);
      }
      currentAttempt := Some(attempt.(terminalEventDelivered := true));
      revision := nextRevision;
      RefreshPostFailurePhase();
      return Ok(());
    }

    method RecordCleanupComplete(attemptId: AttemptId) returns (r: Result<(), RetryError>)
      modifies this
      ensures Realizes(T.RecordCleanupComplete(old(Facts()), attemptId), old(Facts()), Facts(), r)
    {
      var nextRevision :- NextRevision(Facts());
      var attempt :- RequireAttempt(Facts(), attemptId);
      attempt := attempt.(resourcesReleased := true);
      if attempt.lifecycle == Completed
         || (attempt.failure.Some? && (!attempt.streamStarted || attempt.terminalEventDelivered))
      {
        attempt := attempt.(lifecycle := CleanupComplete);
      } else if !desiredRunning {
        attempt := attempt.(lifecycle := CleanupComplete);
      }
      currentAttempt := Some(attempt);
      revision := nextRevision;
      RefreshPostFailurePhase();
      return Ok(());
    }

    method RequireCooldown(evaluated: RetrySnapshot, marker: u64) returns (r: Result<(), RetryError>)
      modifies this
      ensures Realizes(T.RequireCooldown(old(Facts()), evaluated, marker), old(Facts()), Facts(), r)
    {
      var _ :- RequireCurrentSnapshot(Facts(), evaluated);
      if phase != RetryPhase.Waiting {
        return Err(InvalidPhase(phase));
      }
      var nextRevision :- NextRevision(Facts());
      var attempt :- OkOr(currentAttempt, NoCurrentAttempt);
      cooldown := Pending(CooldownRequirement(attempt.id, marker));
      revision := nextRevision;
      return Ok(());
    }

    method SatisfyCooldown(supplied: u64, marker: u64, evidence: u64) returns (r: Result<(), RetryError>)
      modifies this
      ensures Realizes(T.SatisfyCooldown(old(Facts()), supplied, marker, evidence), old(Facts()), Facts(), r)
    {
      var _ :- RequireGeneration(Facts(), supplied);
      if !cooldown.Pending? {
        return Err(CooldownEvidenceMismatch);
      }
      if cooldown.requirement.marker != marker {
        return Err(CooldownEvidenceMismatch);
      }
      var nextRevision :- NextRevision(Facts());
      cooldown := Satisfied(cooldown.requirement, evidence);
      revision := nextRevision;
      return Ok(());
    }

    method MarkExhausted(evaluated: RetrySnapshot, reason: ExhaustionReason) returns (r: Result<(), RetryError>)
      modifies this
      ensures Realizes(T.MarkExhausted(old(Facts()), evaluated, reason), old(Facts()), Facts(), r)
    {
      var _ :- RequireCurrentSnapshot(Facts(), evaluated);
      if episode.Some? && episode.value.exhaustion.Some? {
        return Err(EpisodeExhausted);
      }
      if phase != RetryPhase.Waiting {
        return Err(InvalidPhase(phase));
      }
      var nextRevision :- NextRevision(Facts());
      var attempt :- OkOr(currentAttempt, NoCurrentAttempt);
      var current :- OkOr(configurationId, NoActiveIntent);
      var ended :- OkOr(episode, NoRecoveryEpisode);
      episode := Some(ended.(exhaustion := Some(ExhaustionRecord(
        evaluated.generation, ended.id, evaluated.revision, attempt.id, reason, current))));
      phase := RetryPhase.Exhausted;
      revision := nextRevision;
      return Ok(());
    }

    method AdvanceRecoveryEpisode(supplied: u64, evidence: ResetEvidence) returns (r: Result<EpisodeId, RetryError>)
      modifies this
      ensures Realizes(T.AdvanceRecoveryEpisode(old(Facts()), supplied, evidence), old(Facts()), Facts(), r)
    {
      var _ :- RequireGeneration(Facts(), supplied);
      if !ValidReset(phase, evidence) {
        return Err(InvalidEpisodeResetEvidence);
      }
      if currentAttempt.Some? && currentAttempt.value.failure.Some? && !currentAttempt.value.ReadyForEvaluation() {
        return Err(CleanupPending);
      }
      var previous :- OkOr(episode, NoRecoveryEpisode);
      var ordinal :- CheckedAdd(previous.id.ordinal, 1, CounterExhausted);
      var nextRevision :- NextRevision(Facts());
      var id := EpisodeId(supplied, ordinal);
      EnterEpisode(EpisodeState(id, 0, None), nextRevision);
      return Ok(id);
    }

    method EnterEpisode(next: EpisodeState, nextRevision: u64)
      modifies `episode, `consecutiveFailedAttempts, `cooldown, `phase, `revision
      ensures Facts() == old(Facts()).(episode := Some(next), consecutiveFailedAttempts := 0, cooldown := NotRequired,
                                       phase := if old(phase) == RetryPhase.Exhausted then RetryPhase.Waiting else old(phase),
                                       revision := nextRevision)
    {
      episode := Some(next);
      consecutiveFailedAttempts := 0;
      cooldown := NotRequired;
      if phase == RetryPhase.Exhausted {
        phase := RetryPhase.Waiting;
      }
      revision := nextRevision;
    }

    method RefreshPostFailurePhase()
      modifies `phase, `currentAttempt
      ensures Facts() == T.RefreshPostFailurePhase(old(Facts()))
    {
      if !desiredRunning || phase == RetryPhase.Exhausted {
        return;
      }
      if currentAttempt.Some? && currentAttempt.value.ReadyForEvaluation() {
        phase := RetryPhase.Waiting;
        currentAttempt := Some(currentAttempt.value.(lifecycle := CleanupComplete));
      }
    }
  }
}
