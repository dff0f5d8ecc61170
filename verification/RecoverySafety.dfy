/**
 Safety of automatic recovery over whole runs.

 Retry state alone bounds nothing, and policy alone changes nothing. Here automatic attempts
 are committed only with an authorization that the policy issued under one validated
 configuration, for a snapshot taken at any earlier point of the run.
 */
module RecoverySafety {
  import opened Base
  import opened RetryTransitions
  import opened RetryRuns
  import C = RecoveryConfig
  import P = Recovery

  /** Where an authorization came from: the state the snapshot was taken of, and what was evaluated with it. */
  datatype Warrant = Warrant(
    at: nat,
    currentConfigurationId: ConfigurationIdentity,
    context: P.RecoveryContext,
    cause: RecoveryTypes.RecoveryCause,
    evidence: P.RecoveryEvidence)

  ghost predicate Justifies(
    configuration: C.ConfigurationSnapshot, states: seq<RetryFacts>, i: nat, w: Warrant, a: RecoveryAuthorization)
  {
    && w.at <= i < |states|
    && Snapshot(states[w.at]).Ok?
    && var snapshot := Snapshot(states[w.at]).value;
       snapshot.Authorize(P.EvaluateRecoveryPolicy(
                            configuration, w.currentConfigurationId, snapshot, w.context, w.cause, w.evidence)) == Ok(a)
  }

  /** A run whose recovery commits all carry a policy authorization, however stale. */
  ghost predicate GovernedRun(
    capacity: nat, configuration: C.ConfigurationSnapshot, states: seq<RetryFacts>, ts: seq<Transition>,
    warrants: seq<Warrant>)
  {
    && IsRun(capacity, states, ts)
    && C.ValidateConfiguration(configuration.configuration).Ok?
    && |warrants| == |ts|
    && forall i :: 0 <= i < |ts| && ts[i].CommitRecovery? ==>
         Justifies(configuration, states, i, warrants[i], ts[i].authorization)
  }

  predicate IsRecovery(capacity: nat, s: RetryFacts, t: Transition) {
    t.CommitRecovery? && Accepted(capacity, s, t).Some?
  }

  predicate NeverRetried(cause: FailureCause) {
    || cause.OwnerConstructionFailure? || cause.UnsupportedFormat? || cause.InternalFailure?
    || cause.StartupFailure? || cause.WorkerPanic?
  }

  function Budget(configuration: C.ConfigurationSnapshot): u32 {
    configuration.configuration.budget.maximumAutomaticAttempts
  }

  lemma ValidBudgetNeedsCooldown(c: C.RecoveryConfiguration, class_: FailureClass)
    requires C.ValidateConfiguration(c).Ok? && c.Disposition(class_) != C.NonRetryable
    ensures c.cooldown.CooldownRequired?
  {
    C.ValidIffFailsClosed(c);
  }

  /** Policy permits only under budget, after a satisfied cooldown, and never for the causes that are final. */
  lemma PermitNeeds(
    configuration: C.ConfigurationSnapshot, currentId: ConfigurationIdentity, s: RetrySnapshot,
    context: P.RecoveryContext, cause: RecoveryTypes.RecoveryCause, e: P.RecoveryEvidence)
    requires C.ValidateConfiguration(configuration.configuration).Ok?
    requires s.lastFailure.Some?
    requires P.EvaluateRecoveryPolicy(configuration, currentId, s, context, cause, e).PermitReplacement?
    ensures s.configurationId == configuration.identity
    ensures s.cooldown.Satisfied?
    ensures P.AutomaticAttempts(s) < Budget(configuration)
    ensures !NeverRetried(s.lastFailure.value.cause)
  {
    P.PermitIff(configuration, currentId, s, context, cause, e);
    ValidBudgetNeedsCooldown(configuration.configuration, ClassOf(s.lastFailure.value.cause));
  }

  /**
   Every automatic attempt of a governed run replaces a released attempt whose own failure may
   be retried and whose own cooldown was satisfied, while the episode is below its budget.
   */
  lemma RecoveryIsWarranted(
    capacity: nat, configuration: C.ConfigurationSnapshot, states: seq<RetryFacts>, ts: seq<Transition>,
    warrants: seq<Warrant>, i: nat)
    requires GovernedRun(capacity, configuration, states, ts, warrants)
    requires i < |ts| && IsRecovery(capacity, states[i], ts[i])
    ensures states[i].configurationId == Some(configuration.identity)
    ensures HasFailed(states[i]) && states[i].currentAttempt.value.ReadyForEvaluation()
    ensures !NeverRetried(states[i].currentAttempt.value.failure.value)
    ensures states[i].cooldown.Satisfied?
            && states[i].cooldown.requirement.attemptId == states[i].currentAttempt.value.id
    ensures states[i].episode.Some? && states[i].episode.value.automaticAttemptsStarted < Budget(configuration)
  {
    var w, a := warrants[i], ts[i].authorization;
    var snapshot := Snapshot(states[w.at]).value;
    AuthorizationIsCurrentIffUnchanged(capacity, states, ts, w.at, i, snapshot, a);
    InvAt(capacity, states, ts, i);
    assert states[w.at] == states[i];
    PermitNeeds(configuration, w.currentConfigurationId, snapshot, w.context, w.cause, w.evidence);
  }

  // ----- the budget, counted over the run itself -----

  /** Which transitions of a run committed an automatic attempt. */
  ghost function Recovered(capacity: nat, states: seq<RetryFacts>, ts: seq<Transition>): (r: seq<bool>)
    requires |states| == |ts| + 1
    ensures |r| == |ts|
  {
    seq(|ts|, i requires 0 <= i < |ts| => IsRecovery(capacity, states[i], ts[i]))
  }

  /** How many of the first `n` transitions committed an automatic attempt in episode `e`. */
  function RecoveriesIn(states: seq<RetryFacts>, recovered: seq<bool>, n: nat, e: EpisodeId): nat
    requires n <= |recovered| < |states|
  {
    if n == 0 then 0
    else
      RecoveriesIn(states, recovered, n - 1, e)
      + (if recovered[n - 1] && EpisodeIdOf(states[n - 1].episode) == Some(e) then 1 else 0)
  }

  /** The episode has not been reached yet. */
  predicate Ahead(e: EpisodeId, s: RetryFacts) {
    || s.lastGeneration < e.generation
    || (s.lastGeneration == e.generation && (s.episode.None? || s.episode.value.id.ordinal < e.ordinal))
  }

  /** The episode is kept, its count growing by the attempt committed, or one not reached before begins at zero. */
  ghost predicate Advances(s: RetryFacts, next: RetryFacts, recovered: bool) {
    && (forall e: EpisodeId :: Ahead(e, next) ==> Ahead(e, s))
    && (recovered ==> s.episode.Some? && EpisodeIdOf(next.episode) == EpisodeIdOf(s.episode))
    && (recovered ==> !Ahead(s.episode.value.id, next))
    && (next.episode.Some? ==>
          if EpisodeIdOf(next.episode) == EpisodeIdOf(s.episode) then
            next.episode.value.automaticAttemptsStarted
            == s.episode.value.automaticAttemptsStarted + (if recovered then 1 else 0)
          else Ahead(next.episode.value.id, s) && next.episode.value.automaticAttemptsStarted == 0)
  }

  lemma EvidenceKeepsEpisode(capacity: nat, s: RetryFacts, t: Transition)
    requires !t.Start? && !t.CommitRecovery? && !t.AttemptFailed? && !t.EpisodeWasExhausted? && !t.EpisodeWasAdvanced?
    ensures Next(capacity, s, t).episode == s.episode && Next(capacity, s, t).lastGeneration == s.lastGeneration
  {
  }

  lemma EpisodeChanges(capacity: nat, s: RetryFacts, t: Transition)
    requires Inv(s)
    requires t.Start? || t.CommitRecovery? || t.AttemptFailed? || t.EpisodeWasExhausted? || t.EpisodeWasAdvanced?
    ensures Advances(s, Next(capacity, s, t), IsRecovery(capacity, s, t))
  {
  }

  lemma AdvancesStep(capacity: nat, s: RetryFacts, t: Transition)
    requires Inv(s)
    ensures Advances(s, Next(capacity, s, t), IsRecovery(capacity, s, t))
  {
    if t.Start? || t.CommitRecovery? || t.AttemptFailed? || t.EpisodeWasExhausted? || t.EpisodeWasAdvanced? {
      EpisodeChanges(capacity, s, t);
    } else {
      EvidenceKeepsEpisode(capacity, s, t);
    }
  }

  ghost predicate Counted(states: seq<RetryFacts>, recovered: seq<bool>, n: nat, budget: nat)
    requires n <= |recovered| < |states|
  {
    && (forall e: EpisodeId :: Ahead(e, states[n]) ==> RecoveriesIn(states, recovered, n, e) == 0)
    && (forall e: EpisodeId :: RecoveriesIn(states, recovered, n, e) <= budget)
    && (states[n].episode.Some? ==>
          RecoveriesIn(states, recovered, n, states[n].episode.value.id)
          == states[n].episode.value.automaticAttemptsStarted)
  }

  /** Counting over any chain of states whose recoveries all start below the budget. */
  lemma {:induction false} CountedChain(states: seq<RetryFacts>, recovered: seq<bool>, n: nat, budget: nat)
    requires n <= |recovered| < |states| && states[0] == INITIAL_FACTS
    requires forall k :: 0 <= k < |recovered| ==> Advances(states[k], states[k + 1], recovered[k])
    requires forall k :: 0 <= k < |recovered| && recovered[k] ==>
               states[k].episode.Some? && states[k].episode.value.automaticAttemptsStarted < budget
    ensures Counted(states, recovered, n, budget)
  {
    if n > 0 {
      CountedChain(states, recovered, n - 1, budget);
      assert Advances(states[n - 1], states[n], recovered[n - 1]);
      var now, before := states[n], states[n - 1];
      forall e: EpisodeId
        ensures Ahead(e, now) ==> RecoveriesIn(states, recovered, n, e) == 0
        ensures RecoveriesIn(states, recovered, n, e) <= budget
      {
        assert Ahead(e, now) ==> Ahead(e, before);
        if recovered[n - 1] && EpisodeIdOf(before.episode) == Some(e) {
          assert e == before.episode.value.id && !Ahead(e, now);
        }
      }
    }
  }

  /** No episode of a governed run ever starts more automatic attempts than configured. */
  lemma BudgetIsNeverExceeded(
    capacity: nat, configuration: C.ConfigurationSnapshot, states: seq<RetryFacts>, ts: seq<Transition>,
    warrants: seq<Warrant>, n: nat, e: EpisodeId)
    requires GovernedRun(capacity, configuration, states, ts, warrants) && n <= |ts|
    ensures RecoveriesIn(states, Recovered(capacity, states, ts), n, e) <= Budget(configuration)
    ensures EpisodeIdOf(states[n].episode) == Some(e) ==>
              RecoveriesIn(states, Recovered(capacity, states, ts), n, e)
              == states[n].episode.value.automaticAttemptsStarted
  {
    var recovered := Recovered(capacity, states, ts);
    forall k | 0 <= k < |ts|
      ensures Advances(states[k], states[k + 1], recovered[k])
    {
      InvAt(capacity, states, ts, k);
      AdvancesStep(capacity, states[k], ts[k]);
    }
    forall k | 0 <= k < |ts| && recovered[k]
      ensures states[k].episode.Some? && states[k].episode.value.automaticAttemptsStarted < Budget(configuration)
    {
      RecoveryIsWarranted(capacity, configuration, states, ts, warrants, k);
    }
    CountedChain(states, recovered, n, Budget(configuration));
  }

  /** With recovery disabled no automatic attempt is ever committed. */
  lemma DisabledNeverRecovers(
    capacity: nat, configuration: C.ConfigurationSnapshot, states: seq<RetryFacts>, ts: seq<Transition>,
    warrants: seq<Warrant>, i: nat)
    requires GovernedRun(capacity, configuration, states, ts, warrants) && i < |ts|
    requires Budget(configuration) == 0
    ensures !IsRecovery(capacity, states[i], ts[i])
  {
    if IsRecovery(capacity, states[i], ts[i]) {
      RecoveryIsWarranted(capacity, configuration, states, ts, warrants, i);
    }
  }

  // ----- final failures -----

  predicate HasFinallyFailed(s: RetryFacts) {
    HasFailed(s) && NeverRetried(s.currentAttempt.value.failure.value)
  }

  /** A finally failed attempt is kept until a later intent starts. */
  predicate KeepsFinalFailure(s: RetryFacts, next: RetryFacts) {
    && s.lastGeneration <= next.lastGeneration
    && (HasFinallyFailed(s) && s.lastGeneration == next.lastGeneration ==>
          && HasFailed(next)
          && next.currentAttempt.value.id == s.currentAttempt.value.id
          && next.currentAttempt.value.failure == s.currentAttempt.value.failure)
  }

  predicate TouchesAttempt(t: Transition) {
    || t.OwnerWasCreated? || t.StreamWasStarted? || t.CompletedNormally? || t.AttemptFailed?
    || t.TerminalEventWasDelivered? || t.CleanupWasCompleted?
  }

  lemma AttemptKeepsFinalFailure(capacity: nat, s: RetryFacts, t: Transition)
    requires Inv(s) && TouchesAttempt(t)
    ensures KeepsFinalFailure(s, Next(capacity, s, t))
  {
  }

  lemma PolicyKeepsFinalFailure(capacity: nat, s: RetryFacts, t: Transition)
    requires Inv(s) && !TouchesAttempt(t) && (HasFinallyFailed(s) ==> !IsRecovery(capacity, s, t))
    ensures KeepsFinalFailure(s, Next(capacity, s, t))
  {
  }

  lemma KeepsFinalFailureStep(capacity: nat, s: RetryFacts, t: Transition)
    requires Inv(s) && (HasFinallyFailed(s) ==> !IsRecovery(capacity, s, t))
    ensures KeepsFinalFailure(s, Next(capacity, s, t))
  {
    if TouchesAttempt(t) {
      AttemptKeepsFinalFailure(capacity, s, t);
    } else {
      PolicyKeepsFinalFailure(capacity, s, t);
    }
  }

  lemma {:induction false} KeepsFinalFailureChain(states: seq<RetryFacts>, i: nat, j: nat)
    requires i <= j < |states|
    requires forall k :: 0 <= k < |states| - 1 ==> KeepsFinalFailure(states[k], states[k + 1])
    ensures KeepsFinalFailure(states[i], states[j])
  {
    if i < j {
      KeepsFinalFailureChain(states, i, j - 1);
      assert KeepsFinalFailure(states[j - 1], states[j]);
    }
  }

  /** An attempt that ended in a final failure stays the last attempt of its intent. */
  lemma FinalFailureIsNeverReplaced(
    capacity: nat, configuration: C.ConfigurationSnapshot, states: seq<RetryFacts>, ts: seq<Transition>,
    warrants: seq<Warrant>, i: nat, j: nat)
    requires GovernedRun(capacity, configuration, states, ts, warrants) && i <= j < |states|
    requires HasFinallyFailed(states[i]) && states[j].lastGeneration == states[i].lastGeneration
    ensures HasFailed(states[j])
    ensures states[j].currentAttempt.value.id == states[i].currentAttempt.value.id
    ensures states[j].currentAttempt.value.failure == states[i].currentAttempt.value.failure
  {
    forall k | 0 <= k < |ts|
      ensures KeepsFinalFailure(states[k], states[k + 1])
    {
      InvAt(capacity, states, ts, k);
      if IsRecovery(capacity, states[k], ts[k]) {
        RecoveryIsWarranted(capacity, configuration, states, ts, warrants, k);
      }
      KeepsFinalFailureStep(capacity, states[k], ts[k]);
    }
    KeepsFinalFailureChain(states, i, j);
  }
}
