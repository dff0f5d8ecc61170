/** Cooldowns, exhaustions and snapshots of the retry state carry exactly what was there when they were taken. */
module RetryRecords {
  import opened Base
  import opened RetryTransitions
  import opened RetryRuns

  // ----- cooldowns -----

  predicate RequiresCooldown(capacity: nat, s: RetryFacts, t: Transition, r: CooldownRequirement) {
    && Accepted(capacity, s, t).Some? && t.CooldownWasRequired? && t.marker == r.marker
    && AttemptIdOf(s.currentAttempt) == Some(r.attemptId)
  }

  predicate SatisfiesCooldown(capacity: nat, s: RetryFacts, t: Transition, r: CooldownRequirement, evidence: u64) {
    && Accepted(capacity, s, t).Some? && t.CooldownWasSatisfied? && t.marker == r.marker && t.evidence == evidence
    && s.cooldown == Pending(r)
  }

  /** The requirement is there, whatever has become of it. */
  predicate Carries(cooldown: CooldownState, r: CooldownRequirement) {
    !cooldown.NotRequired? && cooldown.requirement == r
  }

  ghost predicate CooldownMoves(capacity: nat, s: RetryFacts, t: Transition) {
    var next := Next(capacity, s, t).cooldown;
    && (!next.NotRequired? && !Carries(s.cooldown, next.requirement) ==>
          next.Pending? && RequiresCooldown(capacity, s, t, next.requirement))
    && (next.Satisfied? && next != s.cooldown ==> SatisfiesCooldown(capacity, s, t, next.requirement, next.evidence))
    && (t.CooldownWasRequired? && Accepted(capacity, s, t).Some? ==>
          next.Pending? && RequiresCooldown(capacity, s, t, next.requirement))
    && (t.CooldownWasSatisfied? && Accepted(capacity, s, t).Some? ==>
          next.Satisfied? && SatisfiesCooldown(capacity, s, t, next.requirement, next.evidence))
    && (t.Stop? && Accepted(capacity, s, t).Some? && !s.cooldown.NotRequired? ==> next == Invalidated(s.cooldown.requirement))
  }

  lemma CooldownStep(capacity: nat, s: RetryFacts, t: Transition)
    ensures CooldownMoves(capacity, s, t)
  {
    match t
    case AttemptFailed(_, _) =>
    case _ =>
  }

  ghost predicate WasRequired(
    capacity: nat, states: seq<RetryFacts>, ts: seq<Transition>, j: nat, r: CooldownRequirement)
    requires IsRun(capacity, states, ts) && j < |states|
  {
    exists i :: 0 <= i < j && RequiresCooldown(capacity, states[i], ts[i], r)
  }

  ghost predicate WasSatisfied(
    capacity: nat, states: seq<RetryFacts>, ts: seq<Transition>, j: nat, r: CooldownRequirement, evidence: u64)
    requires IsRun(capacity, states, ts) && j < |states|
  {
    exists i :: 0 <= i < j && SatisfiesCooldown(capacity, states[i], ts[i], r, evidence)
  }

  lemma LaterStill(capacity: nat, states: seq<RetryFacts>, ts: seq<Transition>, j: nat, r: CooldownRequirement, e: u64)
    requires IsRun(capacity, states, ts) && j < |ts|
    ensures WasRequired(capacity, states, ts, j, r) ==> WasRequired(capacity, states, ts, j + 1, r)
    ensures RequiresCooldown(capacity, states[j], ts[j], r) ==> WasRequired(capacity, states, ts, j + 1, r)
    ensures WasSatisfied(capacity, states, ts, j, r, e) ==> WasSatisfied(capacity, states, ts, j + 1, r, e)
    ensures SatisfiesCooldown(capacity, states[j], ts[j], r, e) ==> WasSatisfied(capacity, states, ts, j + 1, r, e)
  {
  }

  /**
   At every moment of every run a cooldown names the attempt and the marker it was required for, and
   a satisfied one the evidence it was satisfied with.
   */
  lemma {:induction false} CooldownIsOnRecord(capacity: nat, states: seq<RetryFacts>, ts: seq<Transition>, j: nat)
    requires IsRun(capacity, states, ts) && j < |states|
    ensures var c := states[j].cooldown;
            && (!c.NotRequired? ==> WasRequired(capacity, states, ts, j, c.requirement))
            && (c.Satisfied? ==> WasSatisfied(capacity, states, ts, j, c.requirement, c.evidence))
  {
    if j > 0 {
      var c := states[j].cooldown;
      CooldownIsOnRecord(capacity, states, ts, j - 1);
      CooldownStep(capacity, states[j - 1], ts[j - 1]);
      if !c.NotRequired? {
        LaterStill(capacity, states, ts, j - 1, c.requirement, if c.Satisfied? then c.evidence else 0);
      }
    }
  }

  // ----- exhaustion -----

  /** The transition exhausts the episode, and the record names this very moment. */
  predicate Exhausts(capacity: nat, s: RetryFacts, t: Transition, record: ExhaustionRecord) {
    && Accepted(capacity, s, t).Some? && t.EpisodeWasExhausted? && t.reason == record.reason
    && s.generation == Some(record.generation) && s.revision == record.evaluatedRevision
    && s.configurationId == Some(record.configurationId)
    && EpisodeIdOf(s.episode) == Some(record.episode) && AttemptIdOf(s.currentAttempt) == Some(record.attemptId)
  }

  function ExhaustionOf(s: RetryFacts): Option<ExhaustionRecord> {
    if s.episode.Some? then s.episode.value.exhaustion else None
  }

  lemma ExhaustionStep(capacity: nat, s: RetryFacts, t: Transition)
    ensures var next := ExhaustionOf(Next(capacity, s, t));
            next.Some? && next != ExhaustionOf(s) ==> Exhausts(capacity, s, t, next.value)
    ensures t.EpisodeWasExhausted? && Accepted(capacity, s, t).Some? ==> ExhaustionOf(Next(capacity, s, t)).Some?
  {
    match t
    case AttemptFailed(_, _) =>
    case _ =>
  }

  ghost predicate WasExhausted(
    capacity: nat, states: seq<RetryFacts>, ts: seq<Transition>, j: nat, record: ExhaustionRecord)
    requires IsRun(capacity, states, ts) && j < |states|
  {
    exists i :: 0 <= i < j && Exhausts(capacity, states[i], ts[i], record)
  }

  /** An exhaustion on record names the generation, revision, configuration, episode, attempt and reason it was decided on. */
  lemma {:induction false} ExhaustionIsOnRecord(capacity: nat, states: seq<RetryFacts>, ts: seq<Transition>, j: nat)
    requires IsRun(capacity, states, ts) && j < |states|
    ensures var record := ExhaustionOf(states[j]);
            record.Some? ==> WasExhausted(capacity, states, ts, j, record.value)
  {
    if j > 0 {
      ExhaustionIsOnRecord(capacity, states, ts, j - 1);
      ExhaustionStep(capacity, states[j - 1], ts[j - 1]);
      var record := ExhaustionOf(states[j]);
      if record.Some? && record == ExhaustionOf(states[j - 1]) {
        var i :| 0 <= i < j - 1 && Exhausts(capacity, states[i], ts[i], record.value);
        assert 0 <= i < j;
      }
    }
  }

  // ----- the lifecycle -----

  /** The lifecycle says nothing the other facts of the attempt contradict. */
  predicate LifecycleFits(s: RetryFacts) {
    s.currentAttempt.Some? ==>
      var a := s.currentAttempt.value;
      && (a.terminalEventDelivered ==> a.streamStarted)
      && match a.lifecycle
         case Committed => !a.streamStarted && a.failure.None?
         case OwnerCreated => !a.streamStarted && a.failure.None?
         case Running => a.streamStarted && a.failure.None?
         case Failed => a.failure.Some?
         case Completed => a.failure.None?
         case CleanupComplete => a.resourcesReleased
  }

  lemma LifecycleOfIntentStep(capacity: nat, s: RetryFacts, t: Transition)
    requires Inv(s) && LifecycleFits(s) && (t.Start? || t.Stop? || t.CommitInitial? || t.CommitRecovery?)
    ensures LifecycleFits(Next(capacity, s, t))
  {
  }

  lemma LifecycleOfAttemptStep(capacity: nat, s: RetryFacts, t: Transition)
    requires Inv(s) && LifecycleFits(s) && (t.OwnerWasCreated? || t.StreamWasStarted? || t.CompletedNormally?)
    ensures LifecycleFits(Next(capacity, s, t))
  {
  }

  lemma LifecycleOfFailureStep(capacity: nat, s: RetryFacts, t: Transition)
    requires Inv(s) && LifecycleFits(s) && t.AttemptFailed?
    ensures LifecycleFits(Next(capacity, s, t))
  {
  }

  lemma LifecycleOfEvidenceStep(capacity: nat, s: RetryFacts, t: Transition)
    requires Inv(s) && LifecycleFits(s) && (t.TerminalEventWasDelivered? || t.CleanupWasCompleted?)
    ensures LifecycleFits(Next(capacity, s, t))
  {
  }

  lemma LifecycleOfPolicyStep(capacity: nat, s: RetryFacts, t: Transition)
    requires Inv(s) && LifecycleFits(s)
    requires t.CooldownWasRequired? || t.CooldownWasSatisfied? || t.EpisodeWasExhausted? || t.EpisodeWasAdvanced?
    ensures LifecycleFits(Next(capacity, s, t))
  {
  }

  /** In every reachable state the lifecycle of the attempt fits the other facts about it. */
  lemma {:induction false} LifecycleAt(capacity: nat, states: seq<RetryFacts>, ts: seq<Transition>, i: nat)
    requires IsRun(capacity, states, ts) && i < |states|
    ensures LifecycleFits(states[i])
  {
    if i > 0 {
      var s, t := states[i - 1], ts[i - 1];
      LifecycleAt(capacity, states, ts, i - 1);
      InvAt(capacity, states, ts, i - 1);
      match t
      case Start(_) => LifecycleOfIntentStep(capacity, s, t);
      case Stop(_) => LifecycleOfIntentStep(capacity, s, t);
      case CommitInitial(_) => LifecycleOfIntentStep(capacity, s, t);
      case CommitRecovery(_) => LifecycleOfIntentStep(capacity, s, t);
      case OwnerWasCreated(_) => LifecycleOfAttemptStep(capacity, s, t);
      case StreamWasStarted(_) => LifecycleOfAttemptStep(capacity, s, t);
      case CompletedNormally(_) => LifecycleOfAttemptStep(capacity, s, t);
      case AttemptFailed(_, _) => LifecycleOfFailureStep(capacity, s, t);
      case TerminalEventWasDelivered(_) => LifecycleOfEvidenceStep(capacity, s, t);
      case CleanupWasCompleted(_) => LifecycleOfEvidenceStep(capacity, s, t);
      case _ => LifecycleOfPolicyStep(capacity, s, t);
    }
  }

  // ----- snapshots -----

  /** The state a snapshot was taken of. */
  function FactsIn(snapshot: RetrySnapshot): RetryFacts {
    RetryFacts(
      lastGeneration := snapshot.generation, generation := Some(snapshot.generation), revision := snapshot.revision,
      configurationId := Some(snapshot.configurationId), desiredRunning := snapshot.desiredRunning,
      phase := snapshot.phase, attemptsStarted := snapshot.attemptsStarted, currentAttempt := snapshot.currentAttempt,
      episode := snapshot.episode, lastFailure := snapshot.lastFailure, recentFailures := snapshot.recentFailures,
      failureTotals := snapshot.failureTotals, consecutiveFailedAttempts := snapshot.consecutiveFailedAttempts,
      cooldown := snapshot.cooldown)
  }

  /** A snapshot loses nothing; there is one exactly once an intent was started. */
  lemma SnapshotLosesNothing(capacity: nat, states: seq<RetryFacts>, ts: seq<Transition>, i: nat)
    requires IsRun(capacity, states, ts) && i < |states|
    ensures Snapshot(states[i]).Ok? <==> states[i] != INITIAL_FACTS
    ensures Snapshot(states[i]).Ok? ==> FactsIn(Snapshot(states[i]).value) == states[i]
    ensures Snapshot(states[i]).Err? ==> Snapshot(states[i]).error == NoActiveIntent
  {
    InvAt(capacity, states, ts, i);
  }

  /** A permit, and only a permit, becomes an authorization: with its reason, and good wherever its snapshot is. */
  lemma AuthorizationStandsForSnapshot(s: RetryFacts, snapshot: RetrySnapshot, decision: RecoveryTypes.RecoveryDecision)
    ensures var authorized := snapshot.Authorize(decision);
            if decision.PermitReplacement? then
              && authorized.Ok? && authorized.value.reason == decision.reason
              && RequireCurrentAuthorization(s, authorized.value) == RequireCurrentSnapshot(s, snapshot)
            else authorized == Err(DecisionDoesNotPermitRecovery)
  {
  }
}
