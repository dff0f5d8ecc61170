/** What every run of the retry state machine keeps, whatever its transitions and arguments. */
module RetryRuns {
  import opened Base
  import opened RetryTransitions

  datatype Transition =
    | Start(configurationId: ConfigurationIdentity)
    | Stop(generation: u64)
    | CommitInitial(generation: u64)
    | CommitRecovery(authorization: RecoveryAuthorization)
    | OwnerWasCreated(attemptId: AttemptId)
    | StreamWasStarted(attemptId: AttemptId)
    | CompletedNormally(attemptId: AttemptId)
    | AttemptFailed(attemptId: AttemptId, cause: FailureCause)
    | TerminalEventWasDelivered(attemptId: AttemptId)
    | CleanupWasCompleted(attemptId: AttemptId)
    | CooldownWasRequired(evaluated: RetrySnapshot, marker: u64)
    | CooldownWasSatisfied(generation: u64, marker: u64, evidence: u64)
    | EpisodeWasExhausted(evaluated: RetrySnapshot, reason: ExhaustionReason)
    | EpisodeWasAdvanced(generation: u64, reset: ResetEvidence)

  function After<T>(outcome: Outcome<T>): Option<RetryFacts> {
    match outcome
    case Ok((next, _)) => Some(next)
    case Err(_) => None
  }

  /** The facts after an accepted transition; `None` when it is rejected. */
  function Accepted(capacity: nat, s: RetryFacts, t: Transition): Option<RetryFacts> {
    match t
    case Start(c) => After(ExplicitStart(s, c))
    case Stop(g) => After(ExplicitStop(s, g))
    case CommitInitial(g) => After(CommitInitialAttempt(s, g))
    case CommitRecovery(a) => After(CommitRecoveryAttempt(s, a))
    case OwnerWasCreated(id) => After(RecordOwnerCreated(s, id))
    case StreamWasStarted(id) => After(RecordStreamStarted(s, id))
    case CompletedNormally(id) => After(RecordNormalCompletion(s, id))
    case AttemptFailed(id, cause) => After(RecordFailure(capacity, s, id, cause))
    case TerminalEventWasDelivered(id) => After(RecordTerminalEventDelivered(s, id))
    case CleanupWasCompleted(id) => After(RecordCleanupComplete(s, id))
    case CooldownWasRequired(e, m) => After(RequireCooldown(s, e, m))
    case CooldownWasSatisfied(g, m, e) => After(SatisfyCooldown(s, g, m, e))
    case EpisodeWasExhausted(e, r) => After(MarkExhausted(s, e, r))
    case EpisodeWasAdvanced(g, r) => After(AdvanceRecoveryEpisode(s, g, r))
  }

  function Next(capacity: nat, s: RetryFacts, t: Transition): RetryFacts {
    match Accepted(capacity, s, t)
    case Some(next) => next
    case None => s
  }

  // ----- the inductive invariant -----

  predicate HasFailed(s: RetryFacts) {
    s.currentAttempt.Some? && s.currentAttempt.value.failure.Some?
  }

  predicate IntentIsConsistent(s: RetryFacts) {
    && (s.generation.None? ==> s == INITIAL_FACTS)
    && (s.generation.Some? ==>
          && s.generation.value == s.lastGeneration
          && 1 <= s.lastGeneration
          && 1 <= s.revision
          && s.configurationId.Some?
          && (s.desiredRunning <==> s.phase != RetryPhase.Stopped))
  }

  /** The current attempt is the newest one, and its lifecycle agrees with its facts. */
  predicate AttemptIsConsistent(s: RetryFacts) {
    match s.currentAttempt
    case None => s.attemptsStarted == 0 && s.phase in {RetryPhase.Idle, RetryPhase.Stopped}
    case Some(a) =>
      && a.id == AttemptId(s.lastGeneration, s.attemptsStarted)
      && 1 <= s.attemptsStarted
      && s.phase != RetryPhase.Idle
      && (a.failure.Some? ==> a.lifecycle in {AttemptLifecycle.Failed, CleanupComplete})
      && (a.lifecycle == AttemptLifecycle.Failed ==> a.failure.Some?)
      && (a.lifecycle in {Committed, OwnerCreated} ==> !a.streamStarted)
  }

  /** A failed attempt is the one remembered by the last failure record, inside an episode. */
  predicate FailureIsRemembered(s: RetryFacts) {
    && (s.episode.Some? <==> s.lastFailure.Some?)
    && (s.episode.Some? ==> s.episode.value.id.generation == s.lastGeneration)
    && (HasFailed(s) ==>
          && s.lastFailure.Some?
          && s.lastFailure.value.attemptId == s.currentAttempt.value.id
          && Some(s.lastFailure.value.cause) == s.currentAttempt.value.failure
          && s.lastFailure.value.streamStarted == s.currentAttempt.value.streamStarted)
  }

  predicate PhaseIsConsistent(s: RetryFacts) {
    && (s.phase in {RetryPhase.Waiting, RetryPhase.Exhausted} ==>
          HasFailed(s) && s.currentAttempt.value.ReadyForEvaluation()
          && s.currentAttempt.value.lifecycle == CleanupComplete)
    && (s.phase == RetryPhase.Failed ==> HasFailed(s) && !s.currentAttempt.value.ReadyForEvaluation())
    && (s.phase in {Attempting, RetryPhase.Running} ==> !HasFailed(s))
    && (s.desiredRunning ==> (s.phase == RetryPhase.Exhausted <==> s.EpisodeIsExhausted()))
  }

  predicate CooldownIsCurrent(s: RetryFacts) {
    s.cooldown.Pending? || s.cooldown.Satisfied? ==>
      && s.phase in {RetryPhase.Waiting, RetryPhase.Exhausted}
      && s.currentAttempt.Some?
      && s.cooldown.requirement.attemptId == s.currentAttempt.value.id
  }

  predicate Inv(s: RetryFacts) {
    IntentIsConsistent(s) && AttemptIsConsistent(s) && FailureIsRemembered(s) && PhaseIsConsistent(s)
    && CooldownIsCurrent(s)
  }

  lemma InvIntentStep(capacity: nat, s: RetryFacts, t: Transition)
    requires Inv(s) && (t.Start? || t.Stop? || t.CommitInitial? || t.CommitRecovery?)
    ensures Inv(Next(capacity, s, t))
  {
  }

  lemma InvAttemptStep(capacity: nat, s: RetryFacts, t: Transition)
    requires Inv(s) && (t.OwnerWasCreated? || t.StreamWasStarted? || t.CompletedNormally?)
    ensures Inv(Next(capacity, s, t))
  {
  }

  lemma InvFailureStep(capacity: nat, s: RetryFacts, id: AttemptId, cause: FailureCause)
    requires Inv(s)
    ensures Inv(Next(capacity, s, AttemptFailed(id, cause)))
  {
  }

  lemma InvTerminalStep(capacity: nat, s: RetryFacts, id: AttemptId)
    requires Inv(s)
    ensures Inv(Next(capacity, s, TerminalEventWasDelivered(id)))
  {
  }

  lemma InvCleanupStep(capacity: nat, s: RetryFacts, id: AttemptId)
    requires Inv(s)
    ensures Inv(Next(capacity, s, CleanupWasCompleted(id)))
  {
  }

  lemma InvPolicyStep(capacity: nat, s: RetryFacts, t: Transition)
    requires Inv(s)
    requires t.CooldownWasRequired? || t.CooldownWasSatisfied? || t.EpisodeWasExhausted? || t.EpisodeWasAdvanced?
    ensures Inv(Next(capacity, s, t))
  {
  }

  /** The invariant is inductive: every transition keeps it, accepted or rejected. */
  lemma InvStep(capacity: nat, s: RetryFacts, t: Transition)
    requires Inv(s)
    ensures Inv(Next(capacity, s, t))
  {
    match t
    case Start(_) => InvIntentStep(capacity, s, t);
    case Stop(_) => InvIntentStep(capacity, s, t);
    case CommitInitial(_) => InvIntentStep(capacity, s, t);
    case CommitRecovery(_) => InvIntentStep(capacity, s, t);
    case OwnerWasCreated(_) => InvAttemptStep(capacity, s, t);
    case StreamWasStarted(_) => InvAttemptStep(capacity, s, t);
    case CompletedNormally(_) => InvAttemptStep(capacity, s, t);
    case AttemptFailed(id, cause) => InvFailureStep(capacity, s, id, cause);
    case TerminalEventWasDelivered(id) => InvTerminalStep(capacity, s, id);
    case CleanupWasCompleted(id) => InvCleanupStep(capacity, s, id);
    case CooldownWasRequired(_, _) => InvPolicyStep(capacity, s, t);
    case CooldownWasSatisfied(_, _, _) => InvPolicyStep(capacity, s, t);
    case EpisodeWasExhausted(_, _) => InvPolicyStep(capacity, s, t);
    case EpisodeWasAdvanced(_, _) => InvPolicyStep(capacity, s, t);
  }

  // ----- runs -----

  /** `states[i + 1]` is what transition `ts[i]` makes of `states[i]`; a rejected one repeats the state. */
  ghost predicate IsRun(capacity: nat, states: seq<RetryFacts>, ts: seq<Transition>) {
    && |states| == |ts| + 1
    && states[0] == INITIAL_FACTS
    && forall i :: 0 <= i < |ts| ==> states[i + 1] == Next(capacity, states[i], ts[i])
  }

  lemma {:induction false} InvAt(capacity: nat, states: seq<RetryFacts>, ts: seq<Transition>, i: nat)
    requires IsRun(capacity, states, ts) && i < |states|
    ensures Inv(states[i])
  {
    if i > 0 {
      InvAt(capacity, states, ts, i - 1);
      InvStep(capacity, states[i - 1], ts[i - 1]);
    }
  }

  // ----- freshness: generation and revision identify the state -----

  predicate KeyLess(s: RetryFacts, t: RetryFacts) {
    || s.lastGeneration < t.lastGeneration
    || (s.lastGeneration == t.lastGeneration && s.revision < t.revision)
  }

  /** Every accepted transition strictly increases (generation, revision). */
  lemma KeyStep(capacity: nat, s: RetryFacts, t: Transition)
    requires Accepted(capacity, s, t).Some?
    ensures KeyLess(s, Next(capacity, s, t))
  {
    match t
    case AttemptFailed(_, _) =>
    case TerminalEventWasDelivered(_) =>
    case CleanupWasCompleted(_) =>
    case _ =>
  }

  lemma {:induction false} KeyRun(capacity: nat, states: seq<RetryFacts>, ts: seq<Transition>, i: nat, j: nat)
    requires IsRun(capacity, states, ts) && i <= j < |states|
    ensures states[i] == states[j] || KeyLess(states[i], states[j])
  {
    if i < j {
      KeyRun(capacity, states, ts, i, j - 1);
      if Accepted(capacity, states[j - 1], ts[j - 1]).Some? {
        KeyStep(capacity, states[j - 1], ts[j - 1]);
      }
    }
  }

  /** A snapshot is current exactly while the state it was taken of is still the state. */
  lemma SnapshotIsCurrentIffUnchanged(
    capacity: nat, states: seq<RetryFacts>, ts: seq<Transition>, i: nat, j: nat, snapshot: RetrySnapshot)
    requires IsRun(capacity, states, ts) && i <= j < |states|
    requires Snapshot(states[i]) == Ok(snapshot)
    ensures RequireCurrentSnapshot(states[j], snapshot).Ok? <==> states[j] == states[i]
  {
    KeyRun(capacity, states, ts, i, j);
    InvAt(capacity, states, ts, i);
    InvAt(capacity, states, ts, j);
  }

  /** An authorization is accepted, if at all, only while the snapshot it binds is still the state. */
  lemma AuthorizationIsCurrentIffUnchanged(
    capacity: nat, states: seq<RetryFacts>, ts: seq<Transition>, i: nat, j: nat,
    snapshot: RetrySnapshot, authorization: RecoveryAuthorization)
    requires IsRun(capacity, states, ts) && i <= j < |states|
    requires Snapshot(states[i]) == Ok(snapshot)
    requires exists decision :: snapshot.Authorize(decision) == Ok(authorization)
    ensures RequireCurrentAuthorization(states[j], authorization).Ok? <==> states[j] == states[i]
  {
    KeyRun(capacity, states, ts, i, j);
    InvAt(capacity, states, ts, i);
    InvAt(capacity, states, ts, j);
  }

  /** Whatever authorization is presented, it is accepted for at most one commit of a run. */
  lemma AuthorizationCommitsAtMostOnce(
    capacity: nat, states: seq<RetryFacts>, ts: seq<Transition>, i: nat, j: nat, a: RecoveryAuthorization)
    requires IsRun(capacity, states, ts) && i < j < |ts|
    requires ts[i] == CommitRecovery(a) && Accepted(capacity, states[i], ts[i]).Some?
    ensures Accepted(capacity, states[j], CommitRecovery(a)).None?
  {
    InvAt(capacity, states, ts, i);
    InvAt(capacity, states, ts, j);
    KeyStep(capacity, states[i], ts[i]);
    KeyRun(capacity, states, ts, i + 1, j);
  }

  /** No snapshot, and no authorization bound to one, survives an accepted stop. */
  lemma StopInvalidatesEverythingBefore(
    capacity: nat, states: seq<RetryFacts>, ts: seq<Transition>, i: nat, k: nat, j: nat, snapshot: RetrySnapshot)
    requires IsRun(capacity, states, ts) && i <= k < j < |states|
    requires ts[k].Stop? && Accepted(capacity, states[k], ts[k]).Some?
    requires Snapshot(states[i]) == Ok(snapshot)
    ensures RequireCurrentSnapshot(states[j], snapshot).Err?
    ensures forall decision, a :: snapshot.Authorize(decision) == Ok(a) ==>
                                    Accepted(capacity, states[j], CommitRecovery(a)).None?
  {
    KeyRun(capacity, states, ts, i, k);
    KeyStep(capacity, states[k], ts[k]);
    KeyRun(capacity, states, ts, k + 1, j);
    InvAt(capacity, states, ts, i);
    InvAt(capacity, states, ts, j);
  }

  /** After a stop nothing commits until an intent is started again. */
  lemma {:induction false} NothingCommitsWhileStopped(
    capacity: nat, states: seq<RetryFacts>, ts: seq<Transition>, k: nat, j: nat, commit: Transition)
    requires IsRun(capacity, states, ts) && k < j < |states|
    requires ts[k].Stop? && Accepted(capacity, states[k], ts[k]).Some?
    requires forall m :: k < m < j && ts[m].Start? ==> Accepted(capacity, states[m], ts[m]).None?
    requires commit.CommitInitial? || commit.CommitRecovery?
    ensures !states[j].desiredRunning && Accepted(capacity, states[j], commit).None?
  {
    if j > k + 1 {
      NothingCommitsWhileStopped(capacity, states, ts, k, j - 1, commit);
      OnlyStartRestoresIntent(capacity, states[j - 1], ts[j - 1]);
    }
  }

  lemma OnlyStartRestoresIntent(capacity: nat, s: RetryFacts, t: Transition)
    requires !s.desiredRunning
    ensures Next(capacity, s, t).desiredRunning ==> t.Start? && Accepted(capacity, s, t).Some?
  {
  }

  // ----- attempts -----

  predicate IsCommit(capacity: nat, s: RetryFacts, t: Transition) {
    (t.CommitInitial? || t.CommitRecovery?) && Accepted(capacity, s, t).Some?
  }

  /**
   An attempt is committed only when every earlier one has released its resources: there is
   none in this intent, or the current one is released and its failure evidence is complete.
   */
  lemma CommitNeedsReleasedPredecessor(
    capacity: nat, states: seq<RetryFacts>, ts: seq<Transition>, i: nat)
    requires IsRun(capacity, states, ts) && i < |ts| && IsCommit(capacity, states[i], ts[i])
    ensures ts[i].CommitInitial? ==> states[i].currentAttempt.None? && states[i].attemptsStarted == 0
    ensures ts[i].CommitRecovery? ==>
              && HasFailed(states[i])
              && states[i].currentAttempt.value.ReadyForEvaluation()
              && states[i].lastFailure.Some?
              && states[i].lastFailure.value.attemptId == states[i].currentAttempt.value.id
              && !states[i].EpisodeIsExhausted()
    ensures states[i + 1].currentAttempt.value.id == AttemptId(states[i].lastGeneration, states[i].attemptsStarted + 1)
  {
    InvAt(capacity, states, ts, i);
  }

  predicate Holds(s: RetryFacts, id: AttemptId) {
    s.currentAttempt.Some? && s.currentAttempt.value.id == id
  }

  predicate HasReleased(s: RetryFacts, id: AttemptId) {
    Holds(s, id) && s.currentAttempt.value.resourcesReleased
  }

  lemma HeldStep(capacity: nat, s: RetryFacts, t: Transition, id: AttemptId)
    requires Inv(s) && Holds(s, id) && !HasReleased(s, id)
    ensures Holds(Next(capacity, s, t), id)
  {
    match t
    case AttemptFailed(_, _) =>
    case _ =>
  }

  /** Nothing replaces an attempt that has not released its resources: not a commit, not a new intent. */
  lemma {:induction false} HeldRun(
    capacity: nat, states: seq<RetryFacts>, ts: seq<Transition>, i: nat, j: nat, id: AttemptId)
    requires IsRun(capacity, states, ts) && i <= j < |states| && Holds(states[i], id)
    requires forall k :: i <= k < j ==> !HasReleased(states[k], id)
    ensures Holds(states[j], id)
  {
    if i < j {
      HeldRun(capacity, states, ts, i, j - 1, id);
      InvAt(capacity, states, ts, j - 1);
      HeldStep(capacity, states[j - 1], ts[j - 1], id);
    }
  }

  /**
   Attempts never overlap, across recoveries, stops and new intents: between any two commits of a run
   the earlier attempt has released its resources.
   */
  lemma AttemptsNeverOverlap(capacity: nat, states: seq<RetryFacts>, ts: seq<Transition>, i: nat, j: nat)
    requires IsRun(capacity, states, ts) && i < j < |ts|
    requires IsCommit(capacity, states[i], ts[i]) && IsCommit(capacity, states[j], ts[j])
    ensures exists k :: i < k <= j && HasReleased(states[k], states[i + 1].currentAttempt.value.id)
  {
    CommitNeedsReleasedPredecessor(capacity, states, ts, i);
    CommitNeedsReleasedPredecessor(capacity, states, ts, j);
    var id := states[i + 1].currentAttempt.value.id;
    if forall k :: i < k < j ==> !HasReleased(states[k], id) {
      HeldRun(capacity, states, ts, i + 1, j, id);
      assert HasReleased(states[j], id);
    }
  }

  predicate AttemptKeyAtMost(s: RetryFacts, t: RetryFacts) {
    || s.lastGeneration < t.lastGeneration
    || (s.lastGeneration == t.lastGeneration && s.attemptsStarted <= t.attemptsStarted)
  }

  lemma AttemptKeyStep(capacity: nat, s: RetryFacts, t: Transition)
    ensures AttemptKeyAtMost(s, Next(capacity, s, t))
  {
    match t
    case AttemptFailed(_, _) =>
    case _ =>
  }

  lemma {:induction false} AttemptKeyRun(capacity: nat, states: seq<RetryFacts>, ts: seq<Transition>, i: nat, j: nat)
    requires IsRun(capacity, states, ts) && i <= j < |states|
    ensures AttemptKeyAtMost(states[i], states[j])
  {
    if i < j {
      AttemptKeyRun(capacity, states, ts, i, j - 1);
      AttemptKeyStep(capacity, states[j - 1], ts[j - 1]);
    }
  }

  /** Two commits of one run never allocate the same attempt identity. */
  lemma AttemptIdsNeverRepeat(capacity: nat, states: seq<RetryFacts>, ts: seq<Transition>, i: nat, j: nat)
    requires IsRun(capacity, states, ts) && i < j < |ts|
    requires IsCommit(capacity, states[i], ts[i]) && IsCommit(capacity, states[j], ts[j])
    ensures states[i + 1].currentAttempt.value.id != states[j + 1].currentAttempt.value.id
  {
    CommitNeedsReleasedPredecessor(capacity, states, ts, i);
    CommitNeedsReleasedPredecessor(capacity, states, ts, j);
    AttemptKeyRun(capacity, states, ts, i + 1, j);
  }

  // ----- episodes -----

  /** The intent is kept or a later one begins; within an intent the episode, with its exhaustion, is kept or advances. */
  predicate EpisodeFollows(s: RetryFacts, t: RetryFacts) {
    && s.lastGeneration <= t.lastGeneration
    && (s.lastGeneration == t.lastGeneration && s.episode.Some? ==>
          && t.episode.Some?
          && s.episode.value.id.ordinal <= t.episode.value.id.ordinal
          && (s.episode.value.id.ordinal == t.episode.value.id.ordinal && s.EpisodeIsExhausted() ==>
                t.episode == s.episode))
  }

  predicate ReachesPolicy(t: Transition) {
    t.CooldownWasRequired? || t.CooldownWasSatisfied? || t.EpisodeWasExhausted? || t.EpisodeWasAdvanced?
  }

  lemma EpisodePolicyStep(capacity: nat, s: RetryFacts, t: Transition)
    requires Inv(s) && ReachesPolicy(t)
    ensures EpisodeFollows(s, Next(capacity, s, t))
  {
  }

  lemma EpisodeAttemptStep(capacity: nat, s: RetryFacts, t: Transition)
    requires Inv(s) && !ReachesPolicy(t)
    ensures EpisodeFollows(s, Next(capacity, s, t))
  {
    match t
    case AttemptFailed(_, _) =>
    case _ =>
  }

  lemma EpisodeStep(capacity: nat, s: RetryFacts, t: Transition)
    requires Inv(s)
    ensures EpisodeFollows(s, Next(capacity, s, t))
  {
    if ReachesPolicy(t) {
      EpisodePolicyStep(capacity, s, t);
    } else {
      EpisodeAttemptStep(capacity, s, t);
    }
  }

  lemma EpisodeStepAt(capacity: nat, states: seq<RetryFacts>, ts: seq<Transition>, j: nat)
    requires IsRun(capacity, states, ts) && 0 < j < |states|
    ensures EpisodeFollows(states[j - 1], states[j])
  {
    InvAt(capacity, states, ts, j - 1);
    EpisodeStep(capacity, states[j - 1], ts[j - 1]);
  }

  lemma EpisodeFollowsOn(a: RetryFacts, b: RetryFacts, c: RetryFacts)
    requires EpisodeFollows(a, b) && EpisodeFollows(b, c)
    ensures EpisodeFollows(a, c)
  {
  }

  lemma {:induction false} EpisodeRun(capacity: nat, states: seq<RetryFacts>, ts: seq<Transition>, i: nat, j: nat)
    requires IsRun(capacity, states, ts) && i <= j < |states|
    ensures EpisodeFollows(states[i], states[j])
  {
    if i < j {
      EpisodeRun(capacity, states, ts, i, j - 1);
      EpisodeStepAt(capacity, states, ts, j);
      EpisodeFollowsOn(states[i], states[j - 1], states[j]);
    }
  }

  /** An exhausted episode stays as it was when it was exhausted: it never gains an attempt. */
  lemma ExhaustedEpisodeIsFrozen(capacity: nat, states: seq<RetryFacts>, ts: seq<Transition>, i: nat, j: nat)
    requires IsRun(capacity, states, ts) && i <= j < |states|
    requires states[i].EpisodeIsExhausted()
    requires EpisodeIdOf(states[j].episode) == EpisodeIdOf(states[i].episode)
    ensures states[j].episode == states[i].episode
    ensures forall a :: Accepted(capacity, states[j], CommitRecovery(a)).None?
  {
    EpisodeRun(capacity, states, ts, i, j);
    InvAt(capacity, states, ts, i);
    InvAt(capacity, states, ts, j);
  }
}
