/** Retry accounting agrees with the full history of the current intent. */
module RetryHistory {
  import opened Base
  import opened RetryTransitions
  import opened RetryRuns

  /** What happened since the current intent started; no part of it is stored by the program. */
  datatype History = History(failures: seq<FailureRecord>, recoveries: nat, failuresSinceReset: nat)

  function FailureSeen(s: RetryFacts, attemptId: AttemptId, cause: FailureCause): FailureRecord {
    FailureRecord(attemptId,
                  if s.episode.Some? then s.episode.value.id else EpisodeId(s.lastGeneration, 1),
                  cause,
                  s.currentAttempt.Some? && s.currentAttempt.value.streamStarted)
  }

  function Observe(capacity: nat, h: History, s: RetryFacts, t: Transition): History {
    if Accepted(capacity, s, t).None? then h
    else
      match t
      case Start(_) => History([], 0, 0)
      case CommitRecovery(_) => h.(recoveries := h.recoveries + 1)
      case AttemptFailed(id, cause) =>
        h.(failures := h.failures + [FailureSeen(s, id, cause)], failuresSinceReset := h.failuresSinceReset + 1)
      case EpisodeWasAdvanced(_, _) => h.(failuresSinceReset := 0)
      case _ => h
  }

  ghost function HistoryAt(capacity: nat, states: seq<RetryFacts>, ts: seq<Transition>, i: nat): History
    requires |states| == |ts| + 1 && i < |states|
  {
    if i == 0 then History([], 0, 0)
    else Observe(capacity, HistoryAt(capacity, states, ts, i - 1), states[i - 1], ts[i - 1])
  }

  function Count(class_: FailureClass, failures: seq<FailureRecord>): nat {
    if failures == [] then 0
    else Count(class_, failures[..|failures| - 1]) + (if ClassOf(failures[|failures| - 1].cause) == class_ then 1 else 0)
  }

  lemma CountAppend(class_: FailureClass, failures: seq<FailureRecord>, record: FailureRecord)
    ensures Count(class_, failures + [record])
         == Count(class_, failures) + (if ClassOf(record.cause) == class_ then 1 else 0)
  {
    assert (failures + [record])[..|failures|] == failures;
  }

  function Newest(capacity: nat, failures: seq<FailureRecord>): seq<FailureRecord> {
    if |failures| <= capacity then failures else failures[|failures| - capacity..]
  }

  predicate TotalsAgree(totals: FailureTotals, failures: seq<FailureRecord>) {
    totals.total == |failures| && forall c: FailureClass :: totals.Of(c) == Count(c, failures)
  }

  predicate Agrees(capacity: nat, s: RetryFacts, h: History) {
    && TotalsAgree(s.failureTotals, h.failures)
    && s.recentFailures == Newest(capacity, h.failures)
    && s.lastFailure == (if h.failures == [] then None else Some(h.failures[|h.failures| - 1]))
    && s.consecutiveFailedAttempts == h.failuresSinceReset
    && s.attemptsStarted == (if s.currentAttempt.None? then 0 else 1 + h.recoveries)
    && (s.currentAttempt.None? ==> h.recoveries == 0)
  }

  lemma RecordedCounts(totals: FailureTotals, cause: FailureCause, c: FailureClass)
    requires totals.CheckedWithRecord(cause).Ok?
    ensures totals.CheckedWithRecord(cause).value.Of(c) == totals.Of(c) + if ClassOf(cause) == c then 1 else 0
    ensures totals.CheckedWithRecord(cause).value.total == totals.total + 1
  {
  }

  lemma TotalsStep(totals: FailureTotals, failures: seq<FailureRecord>, record: FailureRecord)
    requires TotalsAgree(totals, failures)
    requires totals.CheckedWithRecord(record.cause).Ok?
    ensures TotalsAgree(totals.CheckedWithRecord(record.cause).value, failures + [record])
  {
    forall c: FailureClass
      ensures totals.CheckedWithRecord(record.cause).value.Of(c) == Count(c, failures + [record])
    {
      CountAppend(c, failures, record);
      RecordedCounts(totals, record.cause, c);
    }
    RecordedCounts(totals, record.cause, ClassOf(record.cause));
  }

  lemma NewestStep(capacity: nat, failures: seq<FailureRecord>, record: FailureRecord)
    requires capacity > 0
    ensures PushRecent(capacity, Newest(capacity, failures), record) == Newest(capacity, failures + [record])
  {
  }

  /** The accounting effect of one recorded failure. */
  predicate Charges(capacity: nat, s: RetryFacts, next: RetryFacts, record: FailureRecord) {
    && s.currentAttempt.Some? && next.currentAttempt.Some?
    && next.attemptsStarted == s.attemptsStarted
    && s.failureTotals.CheckedWithRecord(record.cause) == Ok(next.failureTotals)
    && next.recentFailures == PushRecent(capacity, s.recentFailures, record)
    && next.lastFailure == Some(record)
    && next.consecutiveFailedAttempts == s.consecutiveFailedAttempts + 1
  }

  lemma FailureCharges(capacity: nat, s: RetryFacts, id: AttemptId, cause: FailureCause)
    requires Inv(s) && RecordFailure(capacity, s, id, cause).Ok?
    ensures Charges(capacity, s, RecordFailure(capacity, s, id, cause).value.0, FailureSeen(s, id, cause))
  {
  }

  lemma ChargeKeepsAgreement(capacity: nat, s: RetryFacts, next: RetryFacts, h: History, record: FailureRecord)
    requires capacity > 0 && Agrees(capacity, s, h) && Charges(capacity, s, next, record)
    ensures Agrees(capacity, next,
                   h.(failures := h.failures + [record], failuresSinceReset := h.failuresSinceReset + 1))
  {
    TotalsStep(s.failureTotals, h.failures, record);
    NewestStep(capacity, h.failures, record);
  }

  predicate KeepsAccounting(s: RetryFacts, next: RetryFacts) {
    && next.failureTotals == s.failureTotals
    && next.recentFailures == s.recentFailures
    && next.lastFailure == s.lastFailure
    && (next.currentAttempt.Some? <==> s.currentAttempt.Some?)
    && next.attemptsStarted == s.attemptsStarted
    && next.consecutiveFailedAttempts == s.consecutiveFailedAttempts
  }

  lemma EvidenceKeepsAccounting(capacity: nat, s: RetryFacts, t: Transition)
    requires !t.AttemptFailed? && !t.Start? && !t.CommitInitial? && !t.CommitRecovery? && !t.EpisodeWasAdvanced?
    ensures KeepsAccounting(s, Next(capacity, s, t))
  {
  }

  lemma CommitAndResetStep(capacity: nat, s: RetryFacts, h: History, t: Transition)
    requires capacity > 0 && Inv(s) && Agrees(capacity, s, h)
    requires t.Start? || t.CommitInitial? || t.CommitRecovery? || t.EpisodeWasAdvanced?
    ensures Agrees(capacity, Next(capacity, s, t), Observe(capacity, h, s, t))
  {
    assert TotalsAgree(NO_FAILURES, []);
  }

  lemma AgreesStep(capacity: nat, s: RetryFacts, h: History, t: Transition)
    requires capacity > 0 && Inv(s) && Agrees(capacity, s, h)
    ensures Agrees(capacity, Next(capacity, s, t), Observe(capacity, h, s, t))
  {
    if t.Start? || t.CommitInitial? || t.CommitRecovery? || t.EpisodeWasAdvanced? {
      CommitAndResetStep(capacity, s, h, t);
    } else if !t.AttemptFailed? {
      EvidenceKeepsAccounting(capacity, s, t);
    } else if RecordFailure(capacity, s, t.attemptId, t.cause).Ok? {
      FailureStep(capacity, s, h, t);
    }
  }

  lemma FailureStep(capacity: nat, s: RetryFacts, h: History, t: Transition)
    requires capacity > 0 && Inv(s) && Agrees(capacity, s, h) && t.AttemptFailed?
    requires RecordFailure(capacity, s, t.attemptId, t.cause).Ok?
    ensures Agrees(capacity, Next(capacity, s, t), Observe(capacity, h, s, t))
  {
    FailureCharges(capacity, s, t.attemptId, t.cause);
    ChargeKeepsAgreement(capacity, s, Next(capacity, s, t), h, FailureSeen(s, t.attemptId, t.cause));
  }

  /** In every run the retained counters and the bounded history are exactly those of the full history. */
  lemma {:induction false} AccountingAgreesWithHistory(
    capacity: nat, states: seq<RetryFacts>, ts: seq<Transition>, i: nat)
    requires capacity > 0 && IsRun(capacity, states, ts) && i < |states|
    ensures Agrees(capacity, states[i], HistoryAt(capacity, states, ts, i))
  {
    if i > 0 {
      AccountingAgreesWithHistory(capacity, states, ts, i - 1);
      InvAt(capacity, states, ts, i - 1);
      AgreesStep(capacity, states[i - 1], HistoryAt(capacity, states, ts, i - 1), ts[i - 1]);
    } else {
      assert TotalsAgree(NO_FAILURES, []);
    }
  }

  function SumOfClasses(totals: FailureTotals): nat {
    totals.ownerConstructionFailure + totals.deviceUnavailable + totals.sourceReconfigured + totals.interrupted
    + totals.resourceExhausted + totals.unsupportedFormat + totals.internalFailure + totals.startupFailure
    + totals.workerPanic
  }

  function SumOfCounts(failures: seq<FailureRecord>): nat {
    Count(ClassOwnerConstruction, failures) + Count(ClassDeviceUnavailable, failures)
    + Count(ClassSourceReconfigured, failures) + Count(ClassInterrupted, failures)
    + Count(ClassResourceExhausted, failures) + Count(ClassUnsupportedFormat, failures)
    + Count(ClassInternal, failures) + Count(ClassStartup, failures) + Count(ClassWorkerPanic, failures)
  }

  lemma {:induction false} EveryFailureHasOneClass(failures: seq<FailureRecord>)
    ensures SumOfCounts(failures) == |failures|
  {
    if failures != [] {
      EveryFailureHasOneClass(failures[..|failures| - 1]);
    }
  }

  predicate IsOfClass(cause: FailureCause, class_: FailureClass) {
    match class_
    case ClassOwnerConstruction => cause.OwnerConstructionFailure?
    case ClassDeviceUnavailable => cause.DeviceUnavailable?
    case ClassSourceReconfigured => cause.SourceReconfigured?
    case ClassInterrupted => cause.Interrupted?
    case ClassResourceExhausted => cause.ResourceExhausted?
    case ClassUnsupportedFormat => cause.UnsupportedFormat?
    case ClassInternal => cause.InternalFailure?
    case ClassStartup => cause.StartupFailure?
    case ClassWorkerPanic => cause.WorkerPanic?
  }

  /** Every cause is of one class, whatever device or source it names. */
  lemma ClassIff(cause: FailureCause, class_: FailureClass)
    ensures ClassOf(cause) == class_ <==> IsOfClass(cause, class_)
  {
  }

  /** Each counter counts the failures it is named after. */
  lemma CountersByName(capacity: nat, states: seq<RetryFacts>, ts: seq<Transition>, i: nat)
    requires capacity > 0 && IsRun(capacity, states, ts) && i < |states|
    ensures var failures, totals := HistoryAt(capacity, states, ts, i).failures, states[i].failureTotals;
            && totals.total == |failures|
            && totals.ownerConstructionFailure == Count(ClassOwnerConstruction, failures)
            && totals.deviceUnavailable == Count(ClassDeviceUnavailable, failures)
            && totals.sourceReconfigured == Count(ClassSourceReconfigured, failures)
            && totals.interrupted == Count(ClassInterrupted, failures)
            && totals.resourceExhausted == Count(ClassResourceExhausted, failures)
            && totals.unsupportedFormat == Count(ClassUnsupportedFormat, failures)
            && totals.internalFailure == Count(ClassInternal, failures)
            && totals.startupFailure == Count(ClassStartup, failures)
            && totals.workerPanic == Count(ClassWorkerPanic, failures)
  {
    AccountingAgreesWithHistory(capacity, states, ts, i);
    var totals := states[i].failureTotals;
    assert totals.Of(ClassOwnerConstruction) == totals.ownerConstructionFailure;
    assert totals.Of(ClassDeviceUnavailable) == totals.deviceUnavailable;
    assert totals.Of(ClassSourceReconfigured) == totals.sourceReconfigured;
    assert totals.Of(ClassInterrupted) == totals.interrupted;
    assert totals.Of(ClassResourceExhausted) == totals.resourceExhausted;
    assert totals.Of(ClassUnsupportedFormat) == totals.unsupportedFormat;
    assert totals.Of(ClassInternal) == totals.internalFailure;
    assert totals.Of(ClassStartup) == totals.startupFailure;
    assert totals.Of(ClassWorkerPanic) == totals.workerPanic;
  }

  /** The total never drifts from the nine class counters. */
  lemma TotalIsSumOfClasses(capacity: nat, states: seq<RetryFacts>, ts: seq<Transition>, i: nat)
    requires capacity > 0 && IsRun(capacity, states, ts) && i < |states|
    ensures states[i].failureTotals.total == SumOfClasses(states[i].failureTotals)
  {
    CountersByName(capacity, states, ts, i);
    EveryFailureHasOneClass(HistoryAt(capacity, states, ts, i).failures);
  }
}
