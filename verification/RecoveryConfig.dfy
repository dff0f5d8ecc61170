/** Validated, immutable recovery policy configuration (crates/resonance-agent/src/recovery_config.rs). */
module RecoveryConfig {
  import opened Base
  import opened Fingerprint
  import opened LittleEndian
  import opened RetryTransitions

  const CONFIGURATION_SCHEMA_VERSION: u16 := 1

  type SubsecNanos = x: int | 0 <= x < NANOS_PER_SECOND

  datatype Duration = Duration(secs: u64, nanos: SubsecNanos) {
    predicate IsZero() {
      secs == 0 && nanos == 0
    }

    function AsNanos(): nat {
      secs * NANOS_PER_SECOND + nanos
    }
  }

  datatype ExhaustionBehavior = RemainStoppedUntilNewIntent | RemainStoppedUntilConfigurationChange

  datatype AttemptBudget = AttemptBudget(maximumAutomaticAttempts: u32, exhaustionBehavior: ExhaustionBehavior)

  datatype DelayResetBehavior = NewIntent | NewRecoveryEpisodeAfterStableRun

  datatype CooldownConfiguration =
    | CooldownDisabled
    | CooldownRequired(minimumDelay: Duration, reset: DelayResetBehavior)

  datatype BackoffDelayStrategy =
    | Fixed(delay: Duration)
    | Linear(initialDelay: Duration, increment: Duration)
    | Exponential(initialDelay: Duration, multiplier: u32)

  datatype JitterRequirement = JitterForbidden | JitterRequired(maximum: Duration)

  datatype BackoffConfiguration =
    | BackoffDisabled
    | BackoffRequired(
        strategy: BackoffDelayStrategy, maximumDelay: Duration, jitter: JitterRequirement, reset: DelayResetBehavior)

  datatype EvidenceRequirement =
    | NeedsSourceAvailable | NeedsSupportedFormat | NeedsPressureCleared | NeedsChangedPrecondition

  datatype FailureDisposition =
    | Retryable
    | NonRetryable
    | AdditionalEvidenceRequired(requirement: EvidenceRequirement)

  const FAILURE_CLASSES: seq<FailureClass> := [
    ClassOwnerConstruction, ClassDeviceUnavailable, ClassSourceReconfigured, ClassInterrupted,
    ClassResourceExhausted, ClassUnsupportedFormat, ClassInternal, ClassStartup, ClassWorkerPanic]

  function ClassIndex(class_: FailureClass): (index: nat)
    ensures index < |FAILURE_CLASSES| && FAILURE_CLASSES[index] == class_
  {
    match class_
    case ClassOwnerConstruction => 0
    case ClassDeviceUnavailable => 1
    case ClassSourceReconfigured => 2
    case ClassInterrupted => 3
    case ClassResourceExhausted => 4
    case ClassUnsupportedFormat => 5
    case ClassInternal => 6
    case ClassStartup => 7
    case ClassWorkerPanic => 8
  }

  type Dispositions = s: seq<FailureDisposition> | |s| == 9
    witness [NonRetryable, NonRetryable, NonRetryable, NonRetryable, NonRetryable, NonRetryable, NonRetryable,
             NonRetryable, NonRetryable]

  datatype StableRunEvidence = SupervisorRunningState | ContinuousFrameDelivery

  datatype StableRunResetPolicy =
    | NewIntentOnly
    | StableRunRequired(evidence: StableRunEvidence, minimumDuration: Duration)

  datatype RecoveryConfiguration = RecoveryConfiguration(
    version: u64,
    budget: AttemptBudget,
    cooldown: CooldownConfiguration,
    backoff: BackoffConfiguration,
    dispositions: Dispositions,
    stableRunReset: StableRunResetPolicy)
  {
    function Disposition(class_: FailureClass): FailureDisposition {
      dispositions[ClassIndex(class_)]
    }

    predicate PermitsAnyAutomaticRecovery() {
      exists i :: 0 <= i < |dispositions| && dispositions[i] != NonRetryable
    }
  }

  /** The fail-closed definition shipped while recovery execution is absent. */
  function RecoveryDisabled(version: u64): RecoveryConfiguration {
    RecoveryConfiguration(
      version, AttemptBudget(0, RemainStoppedUntilNewIntent), CooldownDisabled, BackoffDisabled,
      [NonRetryable, NonRetryable, NonRetryable, NonRetryable, NonRetryable, NonRetryable, NonRetryable,
       NonRetryable, NonRetryable],
      NewIntentOnly)
  }

  /** Untrusted input: every field may be missing. */
  datatype ConfigurationInput = ConfigurationInput(
    version: Option<u64>,
    budget: Option<AttemptBudget>,
    cooldown: Option<CooldownConfiguration>,
    backoff: Option<BackoffConfiguration>,
    dispositions: Option<Dispositions>,
    stableRunReset: Option<StableRunResetPolicy>)

  datatype ConfigurationField = Version | Budget | Cooldown | Backoff | FailureClassification | StableRunReset

  datatype DurationField = CooldownMinimum | BackoffInitial | BackoffIncrement | BackoffMaximum | JitterMaximum

  datatype ConfigurationError =
    | MissingRequiredField(field: ConfigurationField)
    | BudgetClassificationConflict
    | DisabledRecoveryHasActivePolicy
    | RecoveryRequiresCooldown
    | RecoveryRequiresBackoff
    | ZeroDuration(duration: DurationField)
    | BackoffInitialExceedsMaximum
    | BackoffIncrementExceedsMaximum
    | ExponentialMultiplierTooSmall
    | JitterExceedsMaximumDelay
    | CooldownExceedsMaximumDelay
    | DelayResetConflict
    | StableRunResetConflict
    | FailureEvidenceConflict(class_: FailureClass)

  // ----- validation -----

  predicate Exceeds(a: Duration, b: Duration) {
    a.AsNanos() > b.AsNanos()
  }

  const GUARDED_CLASSES: seq<(FailureClass, set<EvidenceRequirement>)> := [
    (ClassDeviceUnavailable, {NeedsSourceAvailable, NeedsChangedPrecondition}),
    (ClassSourceReconfigured, {NeedsSupportedFormat, NeedsChangedPrecondition}),
    (ClassResourceExhausted, {NeedsPressureCleared, NeedsChangedPrecondition}),
    (ClassUnsupportedFormat, {NeedsSupportedFormat, NeedsChangedPrecondition})]

  function ValidateClassification(c: RecoveryConfiguration, from: nat): Result<(), ConfigurationError>
    requires from <= |GUARDED_CLASSES|
    decreases |GUARDED_CLASSES| - from
  {
    if from == |GUARDED_CLASSES| then Ok(())
    else
      var (class_, allowed) := GUARDED_CLASSES[from];
      var disposition := c.Disposition(class_);
      if disposition.NonRetryable? || (disposition.AdditionalEvidenceRequired? && disposition.requirement in allowed) then
        ValidateClassification(c, from + 1)
      else Err(FailureEvidenceConflict(class_))
  }

  function ValidateNonzero(d: Duration, field: DurationField): Result<(), ConfigurationError> {
    Require(!d.IsZero(), ZeroDuration(field))
  }

  function ValidateStrategy(strategy: BackoffDelayStrategy, maximum: Duration): Result<(), ConfigurationError> {
    match strategy
    case Fixed(delay) =>
      var _ :- ValidateNonzero(delay, BackoffInitial);
      Require(!Exceeds(delay, maximum), BackoffInitialExceedsMaximum)
    case Linear(initial, increment) =>
      var _ :- ValidateNonzero(initial, BackoffInitial);
      var _ :- ValidateNonzero(increment, BackoffIncrement);
      var _ :- Require(!Exceeds(initial, maximum), BackoffInitialExceedsMaximum);
      Require(!Exceeds(increment, maximum), BackoffIncrementExceedsMaximum)
    case Exponential(initial, multiplier) =>
      var _ :- ValidateNonzero(initial, BackoffInitial);
      var _ :- Require(!Exceeds(initial, maximum), BackoffInitialExceedsMaximum);
      Require(multiplier >= 2, ExponentialMultiplierTooSmall)
  }

  function ValidateBackoff(strategy: BackoffDelayStrategy, maximum: Duration, jitter: JitterRequirement):
    Result<(), ConfigurationError>
  {
    var _ :- ValidateNonzero(maximum, BackoffMaximum);
    var _ :- ValidateStrategy(strategy, maximum);
    if jitter.JitterRequired? then
      var _ :- ValidateNonzero(jitter.maximum, JitterMaximum);
      Require(!Exceeds(jitter.maximum, maximum), JitterExceedsMaximumDelay)
    else Ok(())
  }

  function ValidateEnabled(c: RecoveryConfiguration): Result<(), ConfigurationError> {
    var _ :- Require(c.cooldown.CooldownRequired?, RecoveryRequiresCooldown);
    var _ :- ValidateNonzero(c.cooldown.minimumDelay, CooldownMinimum);
    var _ :- Require(c.backoff.BackoffRequired?, RecoveryRequiresBackoff);
    var _ :- ValidateBackoff(c.backoff.strategy, c.backoff.maximumDelay, c.backoff.jitter);
    var _ :- Require(!Exceeds(c.cooldown.minimumDelay, c.backoff.maximumDelay), CooldownExceedsMaximumDelay);
    var _ :- Require(c.cooldown.reset == c.backoff.reset, DelayResetConflict);
    match (c.stableRunReset, c.cooldown.reset)
    case (NewIntentOnly, NewIntent) => Ok(())
    case (StableRunRequired(_, minimum), NewRecoveryEpisodeAfterStableRun) =>
      Require(!minimum.IsZero(), StableRunResetConflict)
    case (_, _) => Err(StableRunResetConflict)
  }

  function ValidateConfiguration(c: RecoveryConfiguration): Result<(), ConfigurationError> {
    var enabled := c.budget.maximumAutomaticAttempts > 0;
    var _ :- Require(enabled == c.PermitsAnyAutomaticRecovery(), BudgetClassificationConflict);
    var _ :- ValidateClassification(c, 0);
    if enabled then ValidateEnabled(c)
    else
      Require(c.cooldown == CooldownDisabled && c.backoff == BackoffDisabled && c.stableRunReset == NewIntentOnly,
              DisabledRecoveryHasActivePolicy)
  }

  /** Validated configuration together with its identity. */
  datatype ConfigurationSnapshot =
    ConfigurationSnapshot(identity: ConfigurationIdentity, configuration: RecoveryConfiguration)

  function Validate(input: ConfigurationInput): Result<ConfigurationSnapshot, ConfigurationError> {
    var version :- OkOr(input.version, MissingRequiredField(Version));
    var budget :- OkOr(input.budget, MissingRequiredField(Budget));
    var cooldown :- OkOr(input.cooldown, MissingRequiredField(Cooldown));
    var backoff :- OkOr(input.backoff, MissingRequiredField(Backoff));
    var dispositions :- OkOr(input.dispositions, MissingRequiredField(FailureClassification));
    var stableRunReset :- OkOr(input.stableRunReset, MissingRequiredField(StableRunReset));
    var c := RecoveryConfiguration(version, budget, cooldown, backoff, dispositions, stableRunReset);
    var _ :- ValidateConfiguration(c);
    Ok(ConfigurationSnapshot(IdentityOf(c), c))
  }

  /** Recovery that can happen always waits, and recovery without a budget is off for every failure. */
  ghost predicate FailsClosed(c: RecoveryConfiguration) {
    if c.budget.maximumAutomaticAttempts == 0 then
      && (forall class_: FailureClass :: c.Disposition(class_) == NonRetryable)
      && c.cooldown.CooldownDisabled? && c.backoff.BackoffDisabled? && c.stableRunReset.NewIntentOnly?
    else
      && (exists class_: FailureClass :: c.Disposition(class_) != NonRetryable)
      && c.cooldown.CooldownRequired? && c.backoff.BackoffRequired?
      && 0 < c.cooldown.minimumDelay.AsNanos() <= c.backoff.maximumDelay.AsNanos()
      && BackoffIsBounded(c.backoff)
      && c.cooldown.reset == c.backoff.reset
      && (c.cooldown.reset.NewIntent? <==> c.stableRunReset.NewIntentOnly?)
      && (c.stableRunReset.StableRunRequired? ==> 0 < c.stableRunReset.minimumDuration.AsNanos())
  }

  predicate BackoffIsBounded(b: BackoffConfiguration)
    requires b.BackoffRequired?
  {
    var maximum := b.maximumDelay.AsNanos();
    && (match b.strategy
        case Fixed(delay) => 0 < delay.AsNanos() <= maximum
        case Linear(initial, increment) => 0 < initial.AsNanos() <= maximum && 0 < increment.AsNanos() <= maximum
        case Exponential(initial, multiplier) => 0 < initial.AsNanos() <= maximum && 2 <= multiplier)
    && (b.jitter.JitterRequired? ==> 0 < b.jitter.maximum.AsNanos() <= maximum)
  }

  /** A failure that needs outside evidence before a retry is never retried without it. */
  ghost predicate GuardedClassesKeepTheirEvidence(c: RecoveryConfiguration) {
    forall i :: 0 <= i < |GUARDED_CLASSES| ==>
      var disposition := c.Disposition(GUARDED_CLASSES[i].0);
      disposition.NonRetryable?
      || (disposition.AdditionalEvidenceRequired? && disposition.requirement in GUARDED_CLASSES[i].1)
  }

  lemma {:induction false} ClassificationIff(c: RecoveryConfiguration, from: nat)
    requires from <= |GUARDED_CLASSES|
    ensures ValidateClassification(c, from).Ok? <==>
            forall i :: from <= i < |GUARDED_CLASSES| ==>
              var disposition := c.Disposition(GUARDED_CLASSES[i].0);
              disposition.NonRetryable?
              || (disposition.AdditionalEvidenceRequired? && disposition.requirement in GUARDED_CLASSES[i].1)
    decreases |GUARDED_CLASSES| - from
  {
    if from < |GUARDED_CLASSES| {
      ClassificationIff(c, from + 1);
    }
  }

  lemma PermitsIff(c: RecoveryConfiguration)
    ensures c.PermitsAnyAutomaticRecovery() <==> exists class_: FailureClass :: c.Disposition(class_) != NonRetryable
  {
    if c.PermitsAnyAutomaticRecovery() {
      var i :| 0 <= i < |c.dispositions| && c.dispositions[i] != NonRetryable;
      assert ClassIndex(FAILURE_CLASSES[i]) == i;
      assert c.Disposition(FAILURE_CLASSES[i]) != NonRetryable;
    }
  }

  lemma EnabledIff(c: RecoveryConfiguration)
    requires c.budget.maximumAutomaticAttempts > 0
    requires exists class_: FailureClass :: c.Disposition(class_) != NonRetryable
    ensures ValidateEnabled(c).Ok? <==> FailsClosed(c)
  {
  }

  /** Exactly the configurations that fail closed are accepted. */
  lemma ValidIffFailsClosed(c: RecoveryConfiguration)
    ensures ValidateConfiguration(c).Ok? <==> FailsClosed(c) && GuardedClassesKeepTheirEvidence(c)
  {
    ClassificationIff(c, 0);
    PermitsIff(c);
    if c.budget.maximumAutomaticAttempts > 0 && c.PermitsAnyAutomaticRecovery() {
      EnabledIff(c);
    }
  }

  /** Every field the input leaves out. */
  function MissingFields(input: ConfigurationInput): (missing: seq<ConfigurationField>)
    ensures missing == [] <==>
            && input.version.Some? && input.budget.Some? && input.cooldown.Some? && input.backoff.Some?
            && input.dispositions.Some? && input.stableRunReset.Some?
  {
    (if input.version.None? then [Version] else [])
    + (if input.budget.None? then [Budget] else [])
    + (if input.cooldown.None? then [Cooldown] else [])
    + (if input.backoff.None? then [Backoff] else [])
    + (if input.dispositions.None? then [FailureClassification] else [])
    + (if input.stableRunReset.None? then [StableRunReset] else [])
  }

  predicate Supplies(input: ConfigurationInput, c: RecoveryConfiguration) {
    && input.version == Some(c.version) && input.budget == Some(c.budget)
    && input.cooldown == Some(c.cooldown) && input.backoff == Some(c.backoff)
    && input.dispositions == Some(c.dispositions) && input.stableRunReset == Some(c.stableRunReset)
  }

  /**
   Untrusted input becomes a snapshot exactly when nothing is missing and what it supplies fails
   closed; otherwise the first missing field is named before anything is judged.
   */
  lemma ValidateIff(input: ConfigurationInput, c: RecoveryConfiguration)
    ensures MissingFields(input) != [] ==> Validate(input) == Err(MissingRequiredField(MissingFields(input)[0]))
    ensures Validate(input).Ok? ==> MissingFields(input) == [] && Supplies(input, Validate(input).value.configuration)
    ensures Supplies(input, c) ==>
              (Validate(input).Ok? <==> FailsClosed(c) && GuardedClassesKeepTheirEvidence(c))
    ensures Supplies(input, c) && Validate(input).Ok? ==> Validate(input).value == ConfigurationSnapshot(IdentityOf(c), c)
  {
    ValidIffFailsClosed(c);
  }

  lemma DisabledIsValid(version: u64)
    ensures ValidateConfiguration(RecoveryDisabled(version)).Ok?
  {
    ValidIffFailsClosed(RecoveryDisabled(version));
  }

  /** Without a budget there is one valid configuration for each version and exhaustion behaviour; one of them is shipped. */
  lemma ZeroBudgetIsDisabled(c: RecoveryConfiguration)
    requires ValidateConfiguration(c).Ok?
    requires c.budget == AttemptBudget(0, RemainStoppedUntilNewIntent)
    ensures c == RecoveryDisabled(c.version)
  {
    ValidIffFailsClosed(c);
    forall i | 0 <= i < 9
      ensures c.dispositions[i] == NonRetryable
    {
      assert ClassIndex(FAILURE_CLASSES[i]) == i;
      assert c.Disposition(FAILURE_CLASSES[i]) == NonRetryable;
    }
    assert c.dispositions == RecoveryDisabled(c.version).dispositions;
  }

  // ----- what is told of a rejected configuration -----

  /** The evidence each guarded class may ask for. */
  predicate MayAskFor(class_: FailureClass, requirement: EvidenceRequirement) {
    match class_
    case ClassDeviceUnavailable => requirement.NeedsSourceAvailable? || requirement.NeedsChangedPrecondition?
    case ClassSourceReconfigured => requirement.NeedsSupportedFormat? || requirement.NeedsChangedPrecondition?
    case ClassResourceExhausted => requirement.NeedsPressureCleared? || requirement.NeedsChangedPrecondition?
    case ClassUnsupportedFormat => requirement.NeedsSupportedFormat? || requirement.NeedsChangedPrecondition?
    case _ => true
  }

  function FirstDelay(strategy: BackoffDelayStrategy): Duration {
    match strategy
    case Fixed(delay) => delay
    case Linear(initial, _) => initial
    case Exponential(initial, _) => initial
  }

  function DurationIn(c: RecoveryConfiguration, field: DurationField): Option<Duration> {
    match field
    case CooldownMinimum => if c.cooldown.CooldownRequired? then Some(c.cooldown.minimumDelay) else None
    case BackoffInitial => if c.backoff.BackoffRequired? then Some(FirstDelay(c.backoff.strategy)) else None
    case BackoffIncrement =>
      if c.backoff.BackoffRequired? && c.backoff.strategy.Linear? then Some(c.backoff.strategy.increment) else None
    case BackoffMaximum => if c.backoff.BackoffRequired? then Some(c.backoff.maximumDelay) else None
    case JitterMaximum =>
      if c.backoff.BackoffRequired? && c.backoff.jitter.JitterRequired? then Some(c.backoff.jitter.maximum) else None
  }

  /** Both durations are there, and the first is the longer one. */
  predicate IsLonger(c: RecoveryConfiguration, field: DurationField, other: DurationField) {
    && DurationIn(c, field).Some? && DurationIn(c, other).Some?
    && DurationIn(c, field).value.AsNanos() > DurationIn(c, other).value.AsNanos()
  }

  /** What each error says of the configuration it rejects. */
  ghost predicate IsTrue(c: RecoveryConfiguration, error: ConfigurationError) {
    var enabled := c.budget.maximumAutomaticAttempts > 0;
    match error
    case MissingRequiredField(_) => false
    case BudgetClassificationConflict => enabled != exists class_: FailureClass :: c.Disposition(class_) != NonRetryable
    case DisabledRecoveryHasActivePolicy =>
      !enabled && (c.cooldown.CooldownRequired? || c.backoff.BackoffRequired? || c.stableRunReset.StableRunRequired?)
    case RecoveryRequiresCooldown => enabled && c.cooldown.CooldownDisabled?
    case RecoveryRequiresBackoff => enabled && c.backoff.BackoffDisabled?
    case ZeroDuration(field) => enabled && DurationIn(c, field) == Some(Duration(0, 0))
    case BackoffInitialExceedsMaximum => enabled && IsLonger(c, BackoffInitial, BackoffMaximum)
    case BackoffIncrementExceedsMaximum => enabled && IsLonger(c, BackoffIncrement, BackoffMaximum)
    case ExponentialMultiplierTooSmall =>
      enabled && c.backoff.BackoffRequired? && c.backoff.strategy.Exponential? && c.backoff.strategy.multiplier < 2
    case JitterExceedsMaximumDelay => enabled && IsLonger(c, JitterMaximum, BackoffMaximum)
    case CooldownExceedsMaximumDelay => enabled && IsLonger(c, CooldownMinimum, BackoffMaximum)
    case DelayResetConflict =>
      enabled && c.cooldown.CooldownRequired? && c.backoff.BackoffRequired? && c.cooldown.reset != c.backoff.reset
    case StableRunResetConflict =>
      && enabled && c.cooldown.CooldownRequired?
      && (c.stableRunReset.NewIntentOnly? != c.cooldown.reset.NewIntent?
          || (c.stableRunReset.StableRunRequired? && c.stableRunReset.minimumDuration == Duration(0, 0)))
    case FailureEvidenceConflict(class_) =>
      && (class_.ClassDeviceUnavailable? || class_.ClassSourceReconfigured? || class_.ClassResourceExhausted?
          || class_.ClassUnsupportedFormat?)
      && (c.Disposition(class_).Retryable?
          || (c.Disposition(class_).AdditionalEvidenceRequired? && !MayAskFor(class_, c.Disposition(class_).requirement)))
  }

  lemma {:induction false} ClassificationIsTrue(c: RecoveryConfiguration, from: nat)
    requires from <= |GUARDED_CLASSES|
    ensures var r := ValidateClassification(c, from);
            r.Err? ==> r.error.FailureEvidenceConflict? && IsTrue(c, r.error)
    decreases |GUARDED_CLASSES| - from
  {
    if from < |GUARDED_CLASSES| {
      ClassificationIsTrue(c, from + 1);
    }
  }

  lemma EnabledIsTrue(c: RecoveryConfiguration)
    requires c.budget.maximumAutomaticAttempts > 0 && ValidateEnabled(c).Err?
    ensures IsTrue(c, ValidateEnabled(c).error)
  {
  }

  /** A rejected configuration is told something that is so. */
  lemma RejectionIsTrue(c: RecoveryConfiguration)
    requires ValidateConfiguration(c).Err?
    ensures IsTrue(c, ValidateConfiguration(c).error)
  {
    PermitsIff(c);
    ClassificationIsTrue(c, 0);
    if c.budget.maximumAutomaticAttempts > 0 && ValidateEnabled(c).Err? {
      EnabledIsTrue(c);
    }
  }

  // ----- canonical encoding -----

  function PutDuration(d: Duration, tail: seq<u8>): seq<u8> {
    Put(d.secs, 8, Put(d.nanos, 4, tail))
  }

  function GetDuration(bytes: seq<u8>): Option<(Duration, seq<u8>)> {
    match Get(bytes, 8)
    case None => None
    case Some((secs, rest)) =>
      match Get(rest, 4)
      case None => None
      case Some((nanos, rest')) =>
        if secs <= U64_MAX && nanos < NANOS_PER_SECOND then Some((Duration(secs, nanos), rest')) else None
  }

  lemma DurationRoundTrip(d: Duration, tail: seq<u8>)
    ensures GetDuration(PutDuration(d, tail)) == Some((d, tail))
  {
    Capacities();
    GetPut(d.secs, 8, Put(d.nanos, 4, tail));
    GetPut(d.nanos, 4, tail);
  }

  function ResetTag(reset: DelayResetBehavior): u8 {
    match reset
    case NewIntent => 0
    case NewRecoveryEpisodeAfterStableRun => 1
  }

  function GetReset(bytes: seq<u8>): Option<(DelayResetBehavior, seq<u8>)> {
    if bytes == [] then None
    else if bytes[0] == 0 then Some((NewIntent, bytes[1..]))
    else if bytes[0] == 1 then Some((NewRecoveryEpisodeAfterStableRun, bytes[1..]))
    else None
  }

  function PutBudget(b: AttemptBudget, tail: seq<u8>): seq<u8> {
    Put(b.maximumAutomaticAttempts, 4,
        [if b.exhaustionBehavior.RemainStoppedUntilNewIntent? then 0 else 1] + tail)
  }

  function GetBudget(bytes: seq<u8>): Option<(AttemptBudget, seq<u8>)> {
    match Get(bytes, 4)
    case None => None
    case Some((maximum, rest)) =>
      if maximum > U32_MAX || rest == [] || rest[0] > 1 then None
      else
        Some((AttemptBudget(maximum, if rest[0] == 0 then RemainStoppedUntilNewIntent
                                     else RemainStoppedUntilConfigurationChange), rest[1..]))
  }

  lemma BudgetRoundTrip(b: AttemptBudget, tail: seq<u8>)
    ensures GetBudget(PutBudget(b, tail)) == Some((b, tail))
  {
    Capacities();
    var rest := [if b.exhaustionBehavior.RemainStoppedUntilNewIntent? then 0 else 1] + tail;
    GetPut(b.maximumAutomaticAttempts, 4, rest);
    assert rest[1..] == tail;
  }

  function PutCooldown(c: CooldownConfiguration, tail: seq<u8>): seq<u8> {
    match c
    case CooldownDisabled => [0] + tail
    case CooldownRequired(minimum, reset) => [1] + PutDuration(minimum, [ResetTag(reset)] + tail)
  }

  function GetCooldown(bytes: seq<u8>): Option<(CooldownConfiguration, seq<u8>)> {
    if bytes == [] then None
    else if bytes[0] == 0 then Some((CooldownDisabled, bytes[1..]))
    else if bytes[0] != 1 then None
    else
      match GetDuration(bytes[1..])
      case None => None
      case Some((minimum, rest)) =>
        match GetReset(rest)
        case None => None
        case Some((reset, rest')) => Some((CooldownRequired(minimum, reset), rest'))
  }

  lemma TagSplits(tag: u8, tail: seq<u8>)
    ensures ([tag] + tail)[0] == tag && ([tag] + tail)[1..] == tail
  {
  }

  lemma CooldownRoundTrip(c: CooldownConfiguration, tail: seq<u8>)
    ensures GetCooldown(PutCooldown(c, tail)) == Some((c, tail))
  {
    match c
    case CooldownDisabled => TagSplits(0, tail);
    case CooldownRequired(minimum, reset) =>
      TagSplits(ResetTag(reset), tail);
      DurationRoundTrip(minimum, [ResetTag(reset)] + tail);
      TagSplits(1, PutDuration(minimum, [ResetTag(reset)] + tail));
  }

  function PutStrategy(s: BackoffDelayStrategy, tail: seq<u8>): seq<u8> {
    match s
    case Fixed(delay) => [0] + PutDuration(delay, tail)
    case Linear(initial, increment) => [1] + PutDuration(initial, PutDuration(increment, tail))
    case Exponential(initial, multiplier) => [2] + PutDuration(initial, Put(multiplier, 4, tail))
  }

  function GetStrategy(bytes: seq<u8>): Option<(BackoffDelayStrategy, seq<u8>)> {
    if bytes == [] || bytes[0] > 2 then None
    else
      match GetDuration(bytes[1..])
      case None => None
      case Some((first, rest)) =>
        if bytes[0] == 0 then Some((Fixed(first), rest))
        else if bytes[0] == 1 then
          match GetDuration(rest)
          case None => None
          case Some((increment, rest')) => Some((Linear(first, increment), rest'))
        else
          match Get(rest, 4)
          case None => None
          case Some((multiplier, rest')) =>
            if multiplier <= U32_MAX then Some((Exponential(first, multiplier), rest')) else None
  }

  lemma StrategyRoundTrip(s: BackoffDelayStrategy, tail: seq<u8>)
    ensures GetStrategy(PutStrategy(s, tail)) == Some((s, tail))
  {
    match s
    case Fixed(delay) =>
      TagSplits(0, PutDuration(delay, tail));
      DurationRoundTrip(delay, tail);
    case Linear(initial, increment) =>
      TagSplits(1, PutDuration(initial, PutDuration(increment, tail)));
      DurationRoundTrip(initial, PutDuration(increment, tail));
      DurationRoundTrip(increment, tail);
    case Exponential(initial, multiplier) =>
      TagSplits(2, PutDuration(initial, Put(multiplier, 4, tail)));
      DurationRoundTrip(initial, Put(multiplier, 4, tail));
      Capacities();
      GetPut(multiplier, 4, tail);
  }

  function PutJitter(j: JitterRequirement, tail: seq<u8>): seq<u8> {
    match j
    case JitterForbidden => [0] + tail
    case JitterRequired(maximum) => [1] + PutDuration(maximum, tail)
  }

  function GetJitter(bytes: seq<u8>): Option<(JitterRequirement, seq<u8>)> {
    if bytes == [] then None
    else if bytes[0] == 0 then Some((JitterForbidden, bytes[1..]))
    else if bytes[0] != 1 then None
    else
      match GetDuration(bytes[1..])
      case None => None
      case Some((maximum, rest)) => Some((JitterRequired(maximum), rest))
  }

  lemma JitterRoundTrip(j: JitterRequirement, tail: seq<u8>)
    ensures GetJitter(PutJitter(j, tail)) == Some((j, tail))
  {
    match j
    case JitterForbidden => TagSplits(0, tail);
    case JitterRequired(maximum) =>
      TagSplits(1, PutDuration(maximum, tail));
      DurationRoundTrip(maximum, tail);
  }

  function PutBackoff(b: BackoffConfiguration, tail: seq<u8>): seq<u8> {
    match b
    case BackoffDisabled => [0] + tail
    case BackoffRequired(strategy, maximum, jitter, reset) =>
      [1] + PutStrategy(strategy, PutDuration(maximum, PutJitter(jitter, [ResetTag(reset)] + tail)))
  }

  function GetBackoff(bytes: seq<u8>): Option<(BackoffConfiguration, seq<u8>)> {
    if bytes == [] then None
    else if bytes[0] == 0 then Some((BackoffDisabled, bytes[1..]))
    else if bytes[0] != 1 then None
    else
      match GetStrategy(bytes[1..])
      case None => None
      case Some((strategy, afterStrategy)) =>
        match GetDuration(afterStrategy)
        case None => None
        case Some((maximum, afterMaximum)) =>
          match GetJitter(afterMaximum)
          case None => None
          case Some((jitter, afterJitter)) =>
            match GetReset(afterJitter)
            case None => None
            case Some((reset, rest)) => Some((BackoffRequired(strategy, maximum, jitter, reset), rest))
  }

  lemma BackoffRoundTrip(b: BackoffConfiguration, tail: seq<u8>)
    ensures GetBackoff(PutBackoff(b, tail)) == Some((b, tail))
  {
    match b
    case BackoffDisabled => TagSplits(0, tail);
    case BackoffRequired(strategy, maximum, jitter, reset) =>
      var afterJitter := [ResetTag(reset)] + tail;
      var afterMaximum := PutJitter(jitter, afterJitter);
      var afterStrategy := PutDuration(maximum, afterMaximum);
      TagSplits(ResetTag(reset), tail);
      JitterRoundTrip(jitter, afterJitter);
      DurationRoundTrip(maximum, afterMaximum);
      StrategyRoundTrip(strategy, afterStrategy);
      TagSplits(1, PutStrategy(strategy, afterStrategy));
  }

  function RequirementTag(r: EvidenceRequirement): u8 {
    match r
    case NeedsSourceAvailable => 0
    case NeedsSupportedFormat => 1
    case NeedsPressureCleared => 2
    case NeedsChangedPrecondition => 3
  }

  function PutDisposition(d: FailureDisposition, tail: seq<u8>): seq<u8> {
    match d
    case Retryable => [0] + tail
    case NonRetryable => [1] + tail
    case AdditionalEvidenceRequired(requirement) => [2] + ([RequirementTag(requirement)] + tail)
  }

  function GetDisposition(bytes: seq<u8>): Option<(FailureDisposition, seq<u8>)> {
    if bytes == [] then None
    else if bytes[0] == 0 then Some((Retryable, bytes[1..]))
    else if bytes[0] == 1 then Some((NonRetryable, bytes[1..]))
    else if bytes[0] != 2 || |bytes| < 2 || bytes[1] > 3 then None
    else
      var requirement :=
        if bytes[1] == 0 then NeedsSourceAvailable
        else if bytes[1] == 1 then NeedsSupportedFormat
        else if bytes[1] == 2 then NeedsPressureCleared
        else NeedsChangedPrecondition;
      Some((AdditionalEvidenceRequired(requirement), bytes[2..]))
  }

  lemma DispositionRoundTrip(d: FailureDisposition, tail: seq<u8>)
    ensures GetDisposition(PutDisposition(d, tail)) == Some((d, tail))
  {
    match d
    case Retryable => TagSplits(0, tail);
    case NonRetryable => TagSplits(1, tail);
    case AdditionalEvidenceRequired(requirement) =>
      var bytes := PutDisposition(d, tail);
      assert bytes[2..] == tail;
  }

  /** Each remaining class writes its number, then its disposition. */
  function PutDispositions(ds: seq<FailureDisposition>, from: nat, tail: seq<u8>): seq<u8>
    requires from <= |ds| <= 9
    decreases |ds| - from
  {
    if from == |ds| then tail
    else [from] + PutDisposition(ds[from], PutDispositions(ds, from + 1, tail))
  }

  function GetDispositions(bytes: seq<u8>, from: nat, count: nat): Option<(seq<FailureDisposition>, seq<u8>)>
    requires from <= count
    decreases count - from
  {
    if from == count then Some(([], bytes))
    else if bytes == [] || bytes[0] != from then None
    else
      match GetDisposition(bytes[1..])
      case None => None
      case Some((d, rest)) =>
        match GetDispositions(rest, from + 1, count)
        case None => None
        case Some((ds, rest')) => Some(([d] + ds, rest'))
  }

  lemma GetOneMore(
    d: FailureDisposition, more: seq<FailureDisposition>, put: seq<u8>, rest: seq<u8>, tail: seq<u8>, from: u8, count: nat)
    requires from < count && GetDisposition(put) == Some((d, rest))
    requires GetDispositions(rest, from + 1, count) == Some((more, tail))
    ensures GetDispositions([from] + put, from, count) == Some(([d] + more, tail))
  {
    TagSplits(from, put);
  }

  lemma {:induction false} DispositionsRoundTrip(ds: seq<FailureDisposition>, from: nat, tail: seq<u8>)
    requires from <= |ds| <= 9
    ensures GetDispositions(PutDispositions(ds, from, tail), from, |ds|) == Some((ds[from..], tail))
    decreases |ds| - from
  {
    if from < |ds| {
      var rest := PutDispositions(ds, from + 1, tail);
      DispositionsRoundTrip(ds, from + 1, tail);
      DispositionRoundTrip(ds[from], rest);
      assert [ds[from]] + ds[from + 1..] == ds[from..];
      GetOneMore(ds[from], ds[from + 1..], PutDisposition(ds[from], rest), rest, tail, from, |ds|);
    } else {
      assert ds[from..] == [];
    }
  }

  function PutStableRunReset(p: StableRunResetPolicy, tail: seq<u8>): seq<u8> {
    match p
    case NewIntentOnly => [0] + tail
    case StableRunRequired(evidence, minimum) =>
      [1] + ([if evidence.SupervisorRunningState? then 0 else 1] + PutDuration(minimum, tail))
  }

  function GetStableRunReset(bytes: seq<u8>): Option<(StableRunResetPolicy, seq<u8>)> {
    if bytes == [] then None
    else if bytes[0] == 0 then Some((NewIntentOnly, bytes[1..]))
    else if bytes[0] != 1 || |bytes| < 2 || bytes[1] > 1 then None
    else
      match GetDuration(bytes[2..])
      case None => None
      case Some((minimum, rest)) =>
        Some((StableRunRequired(if bytes[1] == 0 then SupervisorRunningState else ContinuousFrameDelivery, minimum), rest))
  }

  lemma StableRunResetRoundTrip(p: StableRunResetPolicy, tail: seq<u8>)
    ensures GetStableRunReset(PutStableRunReset(p, tail)) == Some((p, tail))
  {
    match p
    case NewIntentOnly => TagSplits(0, tail);
    case StableRunRequired(evidence, minimum) =>
      assert PutStableRunReset(p, tail)[2..] == PutDuration(minimum, tail);
      DurationRoundTrip(minimum, tail);
  }

  /** The byte stream that is fingerprinted; the version is carried beside it, not in it. */
  function ContentBytes(c: RecoveryConfiguration): seq<u8> {
    Put(CONFIGURATION_SCHEMA_VERSION, 2,
        PutBudget(c.budget,
                  PutCooldown(c.cooldown,
                              PutBackoff(c.backoff,
                                         PutDispositions(c.dispositions, 0,
                                                         PutStableRunReset(c.stableRunReset, []))))))
  }

  function DecodeContent(version: u64, bytes: seq<u8>): Option<RecoveryConfiguration> {
    match Get(bytes, 2)
    case None => None
    case Some((schema, afterSchema)) =>
      if schema != CONFIGURATION_SCHEMA_VERSION then None
      else
        match GetBudget(afterSchema)
        case None => None
        case Some((budget, afterBudget)) =>
          match GetCooldown(afterBudget)
          case None => None
          case Some((cooldown, afterCooldown)) =>
            match GetBackoff(afterCooldown)
            case None => None
            case Some((backoff, afterBackoff)) =>
              match GetDispositions(afterBackoff, 0, 9)
              case None => None
              case Some((dispositions, afterDispositions)) =>
                match GetStableRunReset(afterDispositions)
                case None => None
                case Some((stableRunReset, rest)) =>
                  if rest == [] && |dispositions| == 9 then
                    Some(RecoveryConfiguration(version, budget, cooldown, backoff, dispositions, stableRunReset))
                  else None
  }

  /** The canonical encoding loses nothing: the whole content can be read back. */
  lemma ContentRoundTrip(c: RecoveryConfiguration)
    ensures DecodeContent(c.version, ContentBytes(c)) == Some(c)
  {
    var b5 := PutStableRunReset(c.stableRunReset, []);
    var b4 := PutDispositions(c.dispositions, 0, b5);
    var b3 := PutBackoff(c.backoff, b4);
    var b2 := PutCooldown(c.cooldown, b3);
    var b1 := PutBudget(c.budget, b2);
    Capacities();
    GetPut(CONFIGURATION_SCHEMA_VERSION, 2, b1);
    BudgetRoundTrip(c.budget, b2);
    CooldownRoundTrip(c.cooldown, b3);
    BackoffRoundTrip(c.backoff, b4);
    DispositionsRoundTrip(c.dispositions, 0, b5);
    assert c.dispositions[0..] == c.dispositions;
    StableRunResetRoundTrip(c.stableRunReset, []);
  }

  /** Two configurations with the same byte stream differ at most in their version. */
  lemma EqualStreamsEqualContent(c: RecoveryConfiguration, d: RecoveryConfiguration)
    requires ContentBytes(c) == ContentBytes(d)
    ensures c.(version := d.version) == d
  {
    ContentRoundTrip(c);
    ContentRoundTrip(d);
  }

  function IdentityOf(c: RecoveryConfiguration): ConfigurationIdentity {
    ConfigurationIdentity(CONFIGURATION_SCHEMA_VERSION, c.version,
                          Finish(Absorb(START, ContentBytes(c))))
  }
}
