/** What the facts of the retry state mean: each was recorded by its own transition, and each error tells the truth. */
module RetryLaws {
  import opened Base
  import opened RetryTransitions
  import opened RetryRuns

  // ----- the phase -----

  /** The phase says nothing that intent, episode and attempt do not say already. */
  function PhaseFor(s: RetryFacts): RetryPhase {
    if s.generation.None? then RetryPhase.Idle
    else if !s.desiredRunning then RetryPhase.Stopped
    else if s.currentAttempt.None? then RetryPhase.Idle
    else if s.EpisodeIsExhausted() then RetryPhase.Exhausted
    else
      var a := s.currentAttempt.value;
      if a.failure.Some? then if a.ReadyForEvaluation() then RetryPhase.Waiting else RetryPhase.Failed
      else if a.streamStarted then RetryPhase.Running
      else Attempting
  }

  predicate PhaseIsDetermined(s: RetryFacts) {
    s.phase == PhaseFor(s)
  }

  lemma PhaseOfIntentStep(capacity: nat, s: RetryFacts, t: Transition)
    requires Inv(s) && PhaseIsDetermined(s) && (t.Start? || t.Stop? || t.CommitInitial? || t.CommitRecovery?)
    ensures PhaseIsDetermined(Next(capacity, s, t))
  {
  }

  lemma PhaseOfAttemptStep(capacity: nat, s: RetryFacts, t: Transition)
    requires Inv(s) && PhaseIsDetermined(s) && (t.OwnerWasCreated? || t.StreamWasStarted? || t.CompletedNormally?)
    ensures PhaseIsDetermined(Next(capacity, s, t))
  {
  }

  lemma PhaseOfFailureStep(capacity: nat, s: RetryFacts, id: AttemptId, cause: FailureCause)
    requires Inv(s) && PhaseIsDetermined(s)
    ensures PhaseIsDetermined(Next(capacity, s, AttemptFailed(id, cause)))
  {
  }

  lemma PhaseOfEvidenceStep(capacity: nat, s: RetryFacts, t: Transition)
    requires Inv(s) && PhaseIsDetermined(s) && (t.TerminalEventWasDelivered? || t.CleanupWasCompleted?)
    ensures PhaseIsDetermined(Next(capacity, s, t))
  {
  }

  lemma PhaseOfPolicyStep(capacity: nat, s: RetryFacts, t: Transition)
    requires Inv(s) && PhaseIsDetermined(s) && ReachesPolicy(t)
    ensures PhaseIsDetermined(Next(capacity, s, t))
  {
  }

  lemma PhaseStep(capacity: nat, s: RetryFacts, t: Transition)
    requires Inv(s) && PhaseIsDetermined(s)
    ensures PhaseIsDetermined(Next(capacity, s, t))
  {
    match t
    case Start(_) => PhaseOfIntentStep(capacity, s, t);
    case Stop(_) => PhaseOfIntentStep(capacity, s, t);
    case CommitInitial(_) => PhaseOfIntentStep(capacity, s, t);
    case CommitRecovery(_) => PhaseOfIntentStep(capacity, s, t);
    case OwnerWasCreated(_) => PhaseOfAttemptStep(capacity, s, t);
    case StreamWasStarted(_) => PhaseOfAttemptStep(capacity, s, t);
    case CompletedNormally(_) => PhaseOfAttemptStep(capacity, s, t);
    case AttemptFailed(id, cause) => PhaseOfFailureStep(capacity, s, id, cause);
    case TerminalEventWasDelivered(_) => PhaseOfEvidenceStep(capacity, s, t);
    case CleanupWasCompleted(_) => PhaseOfEvidenceStep(capacity, s, t);
    case _ => PhaseOfPolicyStep(capacity, s, t);
  }

  /** In every reachable state the phase is the one its intent, episode and attempt call for. */
  lemma {:induction false} PhaseAt(capacity: nat, states: seq<RetryFacts>, ts: seq<Transition>, i: nat)
    requires IsRun(capacity, states, ts) && i < |states|
    ensures states[i].phase == PhaseFor(states[i])
  {
    if i > 0 {
      PhaseAt(capacity, states, ts, i - 1);
      InvAt(capacity, states, ts, i - 1);
      PhaseStep(capacity, states[i - 1], ts[i - 1]);
    }
  }

  // ----- the attempt -----

  /** The facts about an attempt. Each stays for as long as the attempt is the current one. */
  datatype Fact =
    | WasCommitted(kind: AttemptKind)
    | HasStarted
    | HasFailedWith(cause: FailureCause)
    | TerminalEventIsOut
    | IsReleased

  /** What the state says of its current attempt. */
  predicate Says(s: RetryFacts, id: AttemptId, fact: Fact) {
    Holds(s, id) &&
    var a := s.currentAttempt.value;
    match fact
    case WasCommitted(kind) => a.kind == kind
    case HasStarted => a.streamStarted
    case HasFailedWith(cause) => a.failure == Some(cause)
    case TerminalEventIsOut => a.terminalEventDelivered
    case IsReleased => a.resourcesReleased
  }

  predicate IsNext(s: RetryFacts, id: AttemptId) {
    id.generation == s.lastGeneration && id.ordinal == s.attemptsStarted + 1
  }

  /** The one transition that records the fact, and is accepted here. */
  predicate Records(capacity: nat, s: RetryFacts, t: Transition, id: AttemptId, fact: Fact) {
    && Accepted(capacity, s, t).Some?
    && match fact
       case WasCommitted(InitialStart) => t.CommitInitial? && IsNext(s, id)
       case WasCommitted(AutomaticRecovery) => t.CommitRecovery? && IsNext(s, id)
       case HasStarted => t == StreamWasStarted(id)
       case HasFailedWith(cause) => t == AttemptFailed(id, cause)
       case TerminalEventIsOut => t == TerminalEventWasDelivered(id)
       case IsReleased => t == CleanupWasCompleted(id)
  }

  /** A step says of its attempt what was said before, and what it records. */
  ghost predicate AddsOnlyWhatItRecords(capacity: nat, s: RetryFacts, t: Transition, id: AttemptId, fact: Fact) {
    var next := Next(capacity, s, t);
    Holds(next, id) ==> (Says(next, id, fact) <==> Says(s, id, fact) || Records(capacity, s, t, id, fact))
  }

  lemma FactsOfIntentStep(capacity: nat, s: RetryFacts, t: Transition, id: AttemptId, fact: Fact)
    requires Inv(s) && (t.Start? || t.Stop? || t.CommitInitial? || t.CommitRecovery?)
    ensures AddsOnlyWhatItRecords(capacity, s, t, id, fact)
  {
  }

  lemma FactsOfAttemptStep(capacity: nat, s: RetryFacts, t: Transition, id: AttemptId, fact: Fact)
    requires Inv(s) && (t.OwnerWasCreated? || t.StreamWasStarted? || t.CompletedNormally?)
    ensures AddsOnlyWhatItRecords(capacity, s, t, id, fact)
  {
  }

  lemma FactsOfFailureStep(capacity: nat, s: RetryFacts, t: Transition, id: AttemptId, fact: Fact)
    requires Inv(s) && t.AttemptFailed?
    ensures AddsOnlyWhatItRecords(capacity, s, t, id, fact)
  {
  }

  lemma FactsOfEvidenceStep(capacity: nat, s: RetryFacts, t: Transition, id: AttemptId, fact: Fact)
    requires Inv(s) && (t.TerminalEventWasDelivered? || t.CleanupWasCompleted?)
    ensures AddsOnlyWhatItRecords(capacity, s, t, id, fact)
  {
  }

  lemma FactsOfPolicyStep(capacity: nat, s: RetryFacts, t: Transition, id: AttemptId, fact: Fact)
    requires Inv(s) && ReachesPolicy(t)
    ensures AddsOnlyWhatItRecords(capacity, s, t, id, fact)
  {
  }

  lemma FactStep(capacity: nat, s: RetryFacts, t: Transition, id: AttemptId, fact: Fact)
    requires Inv(s)
    ensures AddsOnlyWhatItRecords(capacity, s, t, id, fact)
  {
    match t
    case Start(_) => FactsOfIntentStep(capacity, s, t, id, fact);
    case Stop(_) => FactsOfIntentStep(capacity, s, t, id, fact);
    case CommitInitial(_) => FactsOfIntentStep(capacity, s, t, id, fact);
    case CommitRecovery(_) => FactsOfIntentStep(capacity, s, t, id, fact);
    case OwnerWasCreated(_) => FactsOfAttemptStep(capacity, s, t, id, fact);
    case StreamWasStarted(_) => FactsOfAttemptStep(capacity, s, t, id, fact);
    case CompletedNormally(_) => FactsOfAttemptStep(capacity, s, t, id, fact);
    case AttemptFailed(_, _) => FactsOfFailureStep(capacity, s, t, id, fact);
    case TerminalEventWasDelivered(_) => FactsOfEvidenceStep(capacity, s, t, id, fact);
    case CleanupWasCompleted(_) => FactsOfEvidenceStep(capacity, s, t, id, fact);
    case _ => FactsOfPolicyStep(capacity, s, t, id, fact);
  }

  ghost predicate WasRecorded(
    capacity: nat, states: seq<RetryFacts>, ts: seq<Transition>, j: nat, id: AttemptId, fact: Fact)
    requires IsRun(capacity, states, ts) && j < |states|
  {
    exists i :: 0 <= i < j && Records(capacity, states[i], ts[i], id, fact)
  }

  lemma RecordingHolds(capacity: nat, s: RetryFacts, t: Transition, id: AttemptId, fact: Fact)
    requires Inv(s) && Records(capacity, s, t, id, fact)
    ensures var next := Next(capacity, s, t); next.lastGeneration == id.generation && next.attemptsStarted == id.ordinal
  {
    match t
    case AttemptFailed(_, _) =>
    case _ =>
  }

  lemma OnlyCommitsReplace(capacity: nat, s: RetryFacts, t: Transition, id: AttemptId)
    requires Inv(s) && !Holds(s, id) && Holds(Next(capacity, s, t), id)
    ensures IsNext(s, id)
  {
    match t
    case AttemptFailed(_, _) =>
    case _ =>
  }

  /** Nothing is on record of an attempt before it is committed. */
  lemma NothingBeforeCommit(
    capacity: nat, states: seq<RetryFacts>, ts: seq<Transition>, i: nat, j: nat, id: AttemptId, fact: Fact)
    requires IsRun(capacity, states, ts) && i < j < |ts| && !Holds(states[j], id) && Holds(states[j + 1], id)
    ensures !Records(capacity, states[i], ts[i], id, fact)
  {
    InvAt(capacity, states, ts, i);
    InvAt(capacity, states, ts, j);
    OnlyCommitsReplace(capacity, states[j], ts[j], id);
    AttemptKeyRun(capacity, states, ts, i + 1, j);
    if Records(capacity, states[i], ts[i], id, fact) {
      RecordingHolds(capacity, states[i], ts[i], id, fact);
    }
  }

  /**
   At every moment of every run, what the state says of its current attempt is exactly what some
   earlier transition recorded of that attempt: nothing is made up, mixed up or forgotten.
   */
  lemma {:induction false} SaysWhatWasRecorded(
    capacity: nat, states: seq<RetryFacts>, ts: seq<Transition>, j: nat, id: AttemptId, fact: Fact)
    requires IsRun(capacity, states, ts) && j < |states| && Holds(states[j], id)
    ensures Says(states[j], id, fact) <==> WasRecorded(capacity, states, ts, j, id, fact)
  {
    if j > 0 {
      InvAt(capacity, states, ts, j - 1);
      FactStep(capacity, states[j - 1], ts[j - 1], id, fact);
      if Holds(states[j - 1], id) {
        SaysWhatWasRecorded(capacity, states, ts, j - 1, id, fact);
      } else {
        forall i | 0 <= i < j - 1
          ensures !Records(capacity, states[i], ts[i], id, fact)
        {
          NothingBeforeCommit(capacity, states, ts, i, j - 1, id, fact);
        }
      }
      RecordedStep(capacity, states, ts, j - 1, id, fact);
    }
  }

  lemma RecordedStep(capacity: nat, states: seq<RetryFacts>, ts: seq<Transition>, j: nat, id: AttemptId, fact: Fact)
    requires IsRun(capacity, states, ts) && j < |ts|
    ensures WasRecorded(capacity, states, ts, j + 1, id, fact) <==>
            WasRecorded(capacity, states, ts, j, id, fact) || Records(capacity, states[j], ts[j], id, fact)
  {
    if WasRecorded(capacity, states, ts, j, id, fact) {
      var i :| 0 <= i < j && Records(capacity, states[i], ts[i], id, fact);
      assert 0 <= i < j + 1;
    }
  }

  // ----- release -----

  /** Nothing more can be recorded of how the attempt went. */
  ghost predicate IsClosed(capacity: nat, s: RetryFacts, id: AttemptId) {
    && Accepted(capacity, s, OwnerWasCreated(id)).None? && Accepted(capacity, s, StreamWasStarted(id)).None?
    && Accepted(capacity, s, CompletedNormally(id)).None? && Accepted(capacity, s, TerminalEventWasDelivered(id)).None?
    && forall cause :: RecordFailure(capacity, s, id, cause).Err?
  }

  /** An attempt released after its intent was stopped is closed. */
  lemma ReleaseAfterStopCloses(capacity: nat, s: RetryFacts, id: AttemptId)
    requires Inv(s) && !s.desiredRunning && Accepted(capacity, s, CleanupWasCompleted(id)).Some?
    ensures IsClosed(capacity, Next(capacity, s, CleanupWasCompleted(id)), id)
  {
  }

  /** While it is wanted, an attempt released before it ended can still be recorded to have ended. */
  lemma ReleaseLeavesOutcomeOpen(capacity: nat, s: RetryFacts, id: AttemptId)
    requires Inv(s) && s.desiredRunning && s.revision + 2 <= U64_MAX && !HasFailed(s)
    requires Accepted(capacity, s, CleanupWasCompleted(id)).Some? && Accepted(capacity, s, CompletedNormally(id)).Some?
    ensures Accepted(capacity, Next(capacity, s, CleanupWasCompleted(id)), CompletedNormally(id)).Some?
  {
  }

  // ----- rejections -----

  function Rejection<T>(outcome: Outcome<T>): Option<RetryError> {
    match outcome
    case Ok(_) => None
    case Err(error) => Some(error)
  }

  function Rejected(capacity: nat, s: RetryFacts, t: Transition): Option<RetryError> {
    match t
    case Start(c) => Rejection(ExplicitStart(s, c))
    case Stop(g) => Rejection(ExplicitStop(s, g))
    case CommitInitial(g) => Rejection(CommitInitialAttempt(s, g))
    case CommitRecovery(a) => Rejection(CommitRecoveryAttempt(s, a))
    case OwnerWasCreated(id) => Rejection(RecordOwnerCreated(s, id))
    case StreamWasStarted(id) => Rejection(RecordStreamStarted(s, id))
    case CompletedNormally(id) => Rejection(RecordNormalCompletion(s, id))
    case AttemptFailed(id, cause) => Rejection(RecordFailure(capacity, s, id, cause))
    case TerminalEventWasDelivered(id) => Rejection(RecordTerminalEventDelivered(s, id))
    case CleanupWasCompleted(id) => Rejection(RecordCleanupComplete(s, id))
    case CooldownWasRequired(e, m) => Rejection(RequireCooldown(s, e, m))
    case CooldownWasSatisfied(g, m, e) => Rejection(SatisfyCooldown(s, g, m, e))
    case EpisodeWasExhausted(e, r) => Rejection(MarkExhausted(s, e, r))
    case EpisodeWasAdvanced(g, r) => Rejection(AdvanceRecoveryEpisode(s, g, r))
  }

  function Generation(t: Transition): Option<u64> {
    match t
    case Stop(g) => Some(g)
    case CommitInitial(g) => Some(g)
    case CooldownWasSatisfied(g, _, _) => Some(g)
    case EpisodeWasAdvanced(g, _) => Some(g)
    case _ => None
  }

  function Attempt(t: Transition): Option<AttemptId> {
    match t
    case OwnerWasCreated(id) => Some(id)
    case StreamWasStarted(id) => Some(id)
    case CompletedNormally(id) => Some(id)
    case AttemptFailed(id, _) => Some(id)
    case TerminalEventWasDelivered(id) => Some(id)
    case CleanupWasCompleted(id) => Some(id)
    case _ => None
  }

  /** The phases a transition is for. */
  predicate SuitsPhase(t: Transition, phase: RetryPhase) {
    match t
    case CommitInitial(_) => phase == RetryPhase.Idle
    case CommitRecovery(_) => phase == RetryPhase.Waiting
    case CooldownWasRequired(_, _) => phase == RetryPhase.Waiting
    case EpisodeWasExhausted(_, _) => phase == RetryPhase.Waiting
    case _ => true
  }

  /** The lifecycles a transition is for. */
  predicate SuitsLifecycle(t: Transition, lifecycle: AttemptLifecycle) {
    match t
    case OwnerWasCreated(_) => lifecycle == Committed
    case StreamWasStarted(_) => lifecycle == OwnerCreated
    case CompletedNormally(_) => lifecycle == OwnerCreated || lifecycle == AttemptLifecycle.Running
    case AttemptFailed(_, _) =>
      lifecycle == Committed || lifecycle == OwnerCreated || lifecycle == AttemptLifecycle.Running
    case TerminalEventWasDelivered(_) =>
      lifecycle == AttemptLifecycle.Running || lifecycle == AttemptLifecycle.Failed || lifecycle == Completed
    case _ => true
  }

  predicate IsStale(s: RetryFacts, t: Transition) {
    match t
    case CommitRecovery(a) => RequireCurrentAuthorization(s, a).Err?
    case CooldownWasRequired(evaluated, _) => RequireCurrentSnapshot(s, evaluated).Err?
    case EpisodeWasExhausted(evaluated, _) => RequireCurrentSnapshot(s, evaluated).Err?
    case _ => false
  }

  /** What each error says about the state it is returned from, whichever transition returns it. */
  predicate IsTrue(s: RetryFacts, t: Transition, error: RetryError) {
    match error
    case HistoryCapacityZero => false
    case NoActiveIntent => s.generation.None?
    case IntentAlreadyRunning => t.Start? && s.desiredRunning
    case StaleIntent(current, supplied) => s.generation == Some(current) && Generation(t) == Some(supplied) && current != supplied
    case StaleSnapshot => s.generation.Some? && IsStale(s, t)
    case DecisionDoesNotPermitRecovery => false
    case InvalidPhase(phase) => s.phase == phase && !SuitsPhase(t, phase)
    case NoCurrentAttempt => s.currentAttempt.None?
    case AttemptMismatch(current, supplied) => Holds(s, current) && Attempt(t) == Some(supplied) && current != supplied
    case InvalidAttemptLifecycle(lifecycle) =>
      s.currentAttempt.Some? && s.currentAttempt.value.lifecycle == lifecycle && !SuitsLifecycle(t, lifecycle)
    case FailureAlreadyRecorded => t.AttemptFailed? && HasFailed(s)
    case TerminalEventNotApplicable =>
      && t.TerminalEventWasDelivered? && s.currentAttempt.Some?
      && (!s.currentAttempt.value.streamStarted || !SuitsLifecycle(t, s.currentAttempt.value.lifecycle))
    case CleanupPending =>
      && s.currentAttempt.Some?
      && if t.EpisodeWasAdvanced? then HasFailed(s) && !s.currentAttempt.value.ReadyForEvaluation()
         else !s.currentAttempt.value.resourcesReleased
    case TerminalEvidencePending =>
      s.currentAttempt.Some? && s.currentAttempt.value.streamStarted && !s.currentAttempt.value.terminalEventDelivered
    case NoRecoveryEpisode => s.episode.None?
    case EpisodeExhausted => s.EpisodeIsExhausted()
    case CooldownPending => s.cooldown.Pending? || s.cooldown.Invalidated?
    case CooldownEvidenceMismatch =>
      t.CooldownWasSatisfied? && !(s.cooldown.Pending? && s.cooldown.requirement.marker == t.marker)
    case InvalidEpisodeResetEvidence =>
      && t.EpisodeWasAdvanced?
      && !(if t.reset.StableRun? then s.phase == RetryPhase.Running
           else s.phase == RetryPhase.Waiting || s.phase == RetryPhase.Exhausted)
    case CounterExhausted => SomeCounterIsFull(s, t)
  }

  predicate SomeCounterIsFull(s: RetryFacts, t: Transition) {
    || s.lastGeneration == U64_MAX || s.revision == U64_MAX || s.attemptsStarted == U64_MAX
    || (t.AttemptFailed?
        && (s.consecutiveFailedAttempts == U64_MAX || s.failureTotals.total == U64_MAX
            || s.failureTotals.Of(ClassOf(t.cause)) == U64_MAX))
    || (s.episode.Some? &&
        (s.episode.value.automaticAttemptsStarted == U64_MAX || s.episode.value.id.ordinal == U64_MAX))
  }

  /** Everything a transition asks of the state, short of room in its counters. */
  predicate IsPermitted(s: RetryFacts, t: Transition) {
    && (!t.Start? ==> s.generation.Some?)
    && (Generation(t).Some? ==> s.generation == Generation(t))
    && (Attempt(t).Some? ==> Holds(s, Attempt(t).value) && SuitsLifecycle(t, s.currentAttempt.value.lifecycle))
    && SuitsPhase(t, s.phase) && !IsStale(s, t)
    && match t
       case Start(_) => !s.desiredRunning && (s.currentAttempt.Some? ==> s.currentAttempt.value.resourcesReleased)
       case CommitRecovery(_) =>
         && !s.EpisodeIsExhausted() && s.episode.Some? && s.currentAttempt.Some?
         && s.currentAttempt.value.ReadyForEvaluation() && !s.cooldown.Pending? && !s.cooldown.Invalidated?
       case CompletedNormally(_) => !HasFailed(s)
       case AttemptFailed(_, _) => !HasFailed(s)
       case TerminalEventWasDelivered(_) => s.currentAttempt.value.streamStarted
       case CooldownWasSatisfied(_, marker, _) => s.cooldown.Pending? && s.cooldown.requirement.marker == marker
       case EpisodeWasExhausted(_, _) => !s.EpisodeIsExhausted()
       case EpisodeWasAdvanced(_, reset) =>
         && s.episode.Some?
         && (if reset.StableRun? then s.phase == RetryPhase.Running
             else s.phase == RetryPhase.Waiting || s.phase == RetryPhase.Exhausted)
       case _ => true
  }

  lemma RejectedIff(capacity: nat, s: RetryFacts, t: Transition)
    ensures Rejected(capacity, s, t).Some? <==> Accepted(capacity, s, t).None?
  {
    match t
    case AttemptFailed(_, _) =>
    case _ =>
  }

  /** What the invariant says about which facts come together. */
  predicate IsGrounded(s: RetryFacts) {
    && (s.currentAttempt.Some? || s.desiredRunning || s.cooldown.Pending? || s.phase != RetryPhase.Idle ==>
          s.generation.Some?)
    && (s.generation.Some? ==> s.configurationId.Some? && (s.desiredRunning <==> s.phase != RetryPhase.Stopped))
    && (s.phase == RetryPhase.Waiting || s.phase == RetryPhase.Exhausted ==>
          HasFailed(s) && s.currentAttempt.value.ReadyForEvaluation() && s.episode.Some?)
    && (s.phase == RetryPhase.Running ==> !HasFailed(s))
    && (HasFailed(s) ==>
          s.currentAttempt.value.lifecycle == AttemptLifecycle.Failed || s.currentAttempt.value.lifecycle == CleanupComplete)
  }

  lemma InvIsGrounded(s: RetryFacts)
    requires Inv(s)
    ensures IsGrounded(s)
  {
  }

  ghost predicate AnswersTruly(capacity: nat, s: RetryFacts, t: Transition) {
    match Rejected(capacity, s, t)
    case None => IsPermitted(s, t)
    case Some(error) => IsTrue(s, t, error) && (IsPermitted(s, t) ==> error == CounterExhausted)
  }

  lemma StartAnswersTruly(capacity: nat, s: RetryFacts, c: ConfigurationIdentity)
    requires IsGrounded(s)
    ensures AnswersTruly(capacity, s, Start(c))
  {
  }

  lemma StopAnswersTruly(capacity: nat, s: RetryFacts, g: u64)
    requires IsGrounded(s)
    ensures AnswersTruly(capacity, s, Stop(g))
  {
  }

  lemma CommitInitialAnswersTruly(capacity: nat, s: RetryFacts, g: u64)
    requires IsGrounded(s)
    ensures AnswersTruly(capacity, s, CommitInitial(g))
  {
  }

  lemma RecoveryOutOfPlace(s: RetryFacts, a: RecoveryAuthorization)
    requires IsGrounded(s) && !IsPermitted(s, CommitRecovery(a))
    ensures var r := CommitRecoveryAttempt(s, a);
            r.Err? && IsTrue(s, CommitRecovery(a), r.error)
  {
  }

  lemma RecoveryInPlace(s: RetryFacts, a: RecoveryAuthorization)
    requires IsGrounded(s) && IsPermitted(s, CommitRecovery(a))
    ensures var r := CommitRecoveryAttempt(s, a);
            r.Err? ==> r.error == CounterExhausted && SomeCounterIsFull(s, CommitRecovery(a))
  {
  }

  lemma CommitRecoveryAnswersTruly(capacity: nat, s: RetryFacts, a: RecoveryAuthorization)
    requires IsGrounded(s)
    ensures AnswersTruly(capacity, s, CommitRecovery(a))
  {
    if IsPermitted(s, CommitRecovery(a)) {
      RecoveryInPlace(s, a);
    } else {
      RecoveryOutOfPlace(s, a);
    }
  }

  lemma OwnerCreatedAnswersTruly(capacity: nat, s: RetryFacts, id: AttemptId)
    requires IsGrounded(s)
    ensures AnswersTruly(capacity, s, OwnerWasCreated(id))
  {
  }

  lemma StreamStartedAnswersTruly(capacity: nat, s: RetryFacts, id: AttemptId)
    requires IsGrounded(s)
    ensures AnswersTruly(capacity, s, StreamWasStarted(id))
  {
  }

  lemma CompletedAnswersTruly(capacity: nat, s: RetryFacts, id: AttemptId)
    requires IsGrounded(s)
    ensures AnswersTruly(capacity, s, CompletedNormally(id))
  {
  }

  lemma FailureOutOfPlace(capacity: nat, s: RetryFacts, id: AttemptId, cause: FailureCause)
    requires IsGrounded(s) && !IsPermitted(s, AttemptFailed(id, cause))
    ensures var r := RecordFailure(capacity, s, id, cause);
            r.Err? && IsTrue(s, AttemptFailed(id, cause), r.error)
  {
  }

  lemma FailureInPlace(capacity: nat, s: RetryFacts, id: AttemptId, cause: FailureCause)
    requires IsGrounded(s) && IsPermitted(s, AttemptFailed(id, cause))
    ensures var r := RecordFailure(capacity, s, id, cause);
            r.Err? ==> r.error == CounterExhausted && SomeCounterIsFull(s, AttemptFailed(id, cause))
  {
  }

  lemma FailedAnswersTruly(capacity: nat, s: RetryFacts, id: AttemptId, cause: FailureCause)
    requires IsGrounded(s)
    ensures AnswersTruly(capacity, s, AttemptFailed(id, cause))
  {
    if IsPermitted(s, AttemptFailed(id, cause)) {
      FailureInPlace(capacity, s, id, cause);
    } else {
      FailureOutOfPlace(capacity, s, id, cause);
    }
  }

  lemma TerminalEventAnswersTruly(capacity: nat, s: RetryFacts, id: AttemptId)
    requires IsGrounded(s)
    ensures AnswersTruly(capacity, s, TerminalEventWasDelivered(id))
  {
  }

  lemma CleanupAnswersTruly(capacity: nat, s: RetryFacts, id: AttemptId)
    requires IsGrounded(s)
    ensures AnswersTruly(capacity, s, CleanupWasCompleted(id))
  {
  }

  lemma CooldownRequiredAnswersTruly(capacity: nat, s: RetryFacts, e: RetrySnapshot, m: u64)
    requires IsGrounded(s)
    ensures AnswersTruly(capacity, s, CooldownWasRequired(e, m))
  {
  }

  lemma CooldownSatisfiedAnswersTruly(capacity: nat, s: RetryFacts, g: u64, m: u64, e: u64)
    requires IsGrounded(s)
    ensures AnswersTruly(capacity, s, CooldownWasSatisfied(g, m, e))
  {
  }

  lemma ExhaustedAnswersTruly(capacity: nat, s: RetryFacts, e: RetrySnapshot, r: ExhaustionReason)
    requires IsGrounded(s)
    ensures AnswersTruly(capacity, s, EpisodeWasExhausted(e, r))
  {
  }

  lemma AdvancedAnswersTruly(capacity: nat, s: RetryFacts, g: u64, r: ResetEvidence)
    requires IsGrounded(s)
    ensures AnswersTruly(capacity, s, EpisodeWasAdvanced(g, r))
  {
  }

  lemma AnswerIsTrue(capacity: nat, s: RetryFacts, t: Transition)
    requires Inv(s)
    ensures AnswersTruly(capacity, s, t)
  {
    InvIsGrounded(s);
    match t
    case Start(c) => StartAnswersTruly(capacity, s, c);
    case Stop(g) => StopAnswersTruly(capacity, s, g);
    case CommitInitial(g) => CommitInitialAnswersTruly(capacity, s, g);
    case CommitRecovery(a) => CommitRecoveryAnswersTruly(capacity, s, a);
    case OwnerWasCreated(id) => OwnerCreatedAnswersTruly(capacity, s, id);
    case StreamWasStarted(id) => StreamStartedAnswersTruly(capacity, s, id);
    case CompletedNormally(id) => CompletedAnswersTruly(capacity, s, id);
    case AttemptFailed(id, cause) => FailedAnswersTruly(capacity, s, id, cause);
    case TerminalEventWasDelivered(id) => TerminalEventAnswersTruly(capacity, s, id);
    case CleanupWasCompleted(id) => CleanupAnswersTruly(capacity, s, id);
    case CooldownWasRequired(e, m) => CooldownRequiredAnswersTruly(capacity, s, e, m);
    case CooldownWasSatisfied(g, m, e) => CooldownSatisfiedAnswersTruly(capacity, s, g, m, e);
    case EpisodeWasExhausted(e, r) => ExhaustedAnswersTruly(capacity, s, e, r);
    case EpisodeWasAdvanced(g, r) => AdvancedAnswersTruly(capacity, s, g, r);
  }

  /**
   In every reachable state a transition is accepted exactly if the state permits it, as far as its
   counters have room; a rejection names something that is so, and changes nothing.
   */
  lemma AcceptedIffPermitted(capacity: nat, states: seq<RetryFacts>, ts: seq<Transition>, i: nat)
    requires IsRun(capacity, states, ts) && i < |ts|
    ensures var rejected := Rejected(capacity, states[i], ts[i]);
            && (Accepted(capacity, states[i], ts[i]).Some? <==>
                IsPermitted(states[i], ts[i]) && rejected != Some(CounterExhausted))
            && (rejected.Some? ==> IsTrue(states[i], ts[i], rejected.value) && states[i + 1] == states[i])
  {
    InvAt(capacity, states, ts, i);
    RejectedIff(capacity, states[i], ts[i]);
    AnswerIsTrue(capacity, states[i], ts[i]);
  }
}
