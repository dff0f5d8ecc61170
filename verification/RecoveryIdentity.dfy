/**
 The identity of a configuration, computed by writing its fields into the fingerprint one by one.

 Every `Encode` method takes the bytes still to come as a ghost argument and states that
 writing its value is the same as having its encoding stand in front of them.
 */
module RecoveryIdentity {
  import opened Base
  import opened Fingerprint
  import opened LittleEndian
  import opened RecoveryConfig
  import opened RetryTransitions

  method EncodeDuration(fp: StableFingerprint, d: Duration, ghost tail: seq<u8>)
    modifies fp
    ensures Absorb(fp.Value(), tail) == Absorb(old(fp.Value()), PutDuration(d, tail))
  {
    fp.WriteLe(d.secs, 8, Put(d.nanos, 4, tail));
    fp.WriteLe(d.nanos, 4, tail);
  }

  method EncodeBudget(fp: StableFingerprint, b: AttemptBudget, ghost tail: seq<u8>)
    modifies fp
    ensures Absorb(fp.Value(), tail) == Absorb(old(fp.Value()), PutBudget(b, tail))
  {
    var behavior: u8 := if b.exhaustionBehavior.RemainStoppedUntilNewIntent? then 0 else 1;
    fp.WriteLe(b.maximumAutomaticAttempts, 4, [behavior] + tail);
    fp.WriteU8(behavior, tail);
  }

  method EncodeCooldown(fp: StableFingerprint, c: CooldownConfiguration, ghost tail: seq<u8>)
    modifies fp
    ensures Absorb(fp.Value(), tail) == Absorb(old(fp.Value()), PutCooldown(c, tail))
  {
    match c
    case CooldownDisabled => fp.WriteU8(0, tail);
    case CooldownRequired(minimum, reset) =>
      fp.WriteU8(1, PutDuration(minimum, [ResetTag(reset)] + tail));
      EncodeDuration(fp, minimum, [ResetTag(reset)] + tail);
      fp.WriteU8(ResetTag(reset), tail);
  }

  method EncodeStrategy(fp: StableFingerprint, s: BackoffDelayStrategy, ghost tail: seq<u8>)
    modifies fp
    ensures Absorb(fp.Value(), tail) == Absorb(old(fp.Value()), PutStrategy(s, tail))
  {
    match s
    case Fixed(delay) =>
      fp.WriteU8(0, PutDuration(delay, tail));
      EncodeDuration(fp, delay, tail);
    case Linear(initial, increment) =>
      fp.WriteU8(1, PutDuration(initial, PutDuration(increment, tail)));
      EncodeDuration(fp, initial, PutDuration(increment, tail));
      EncodeDuration(fp, increment, tail);
    case Exponential(initial, multiplier) =>
      fp.WriteU8(2, PutDuration(initial, Put(multiplier, 4, tail)));
      EncodeDuration(fp, initial, Put(multiplier, 4, tail));
      fp.WriteLe(multiplier, 4, tail);
  }

  method EncodeBackoff(fp: StableFingerprint, b: BackoffConfiguration, ghost tail: seq<u8>)
    modifies fp
    ensures Absorb(fp.Value(), tail) == Absorb(old(fp.Value()), PutBackoff(b, tail))
  {
    match b
    case BackoffDisabled => fp.WriteU8(0, tail);
    case BackoffRequired(strategy, maximum, jitter, reset) =>
      ghost var afterJitter := [ResetTag(reset)] + tail;
      ghost var afterMaximum := PutJitter(jitter, afterJitter);
      ghost var afterStrategy := PutDuration(maximum, afterMaximum);
      fp.WriteU8(1, PutStrategy(strategy, afterStrategy));
      EncodeStrategy(fp, strategy, afterStrategy);
      EncodeDuration(fp, maximum, afterMaximum);
      match jitter {
        case JitterForbidden => fp.WriteU8(0, afterJitter);
        case JitterRequired(limit) =>
          fp.WriteU8(1, PutDuration(limit, afterJitter));
          EncodeDuration(fp, limit, afterJitter);
      }
      fp.WriteU8(ResetTag(reset), tail);
  }

  method EncodeDisposition(fp: StableFingerprint, d: FailureDisposition, ghost tail: seq<u8>)
    modifies fp
    ensures Absorb(fp.Value(), tail) == Absorb(old(fp.Value()), PutDisposition(d, tail))
  {
    match d
    case Retryable => fp.WriteU8(0, tail);
    case NonRetryable => fp.WriteU8(1, tail);
    case AdditionalEvidenceRequired(requirement) =>
      fp.WriteU8(2, [RequirementTag(requirement)] + tail);
      fp.WriteU8(RequirementTag(requirement), tail);
  }

  method EncodeStableRunReset(fp: StableFingerprint, p: StableRunResetPolicy, ghost tail: seq<u8>)
    modifies fp
    ensures Absorb(fp.Value(), tail) == Absorb(old(fp.Value()), PutStableRunReset(p, tail))
  {
    match p
    case NewIntentOnly => fp.WriteU8(0, tail);
    case StableRunRequired(evidence, minimum) =>
      var source: u8 := if evidence.SupervisorRunningState? then 0 else 1;
      fp.WriteU8(1, [source] + PutDuration(minimum, tail));
      fp.WriteU8(source, PutDuration(minimum, tail));
      EncodeDuration(fp, minimum, tail);
  }

  method Identity(c: RecoveryConfiguration) returns (id: ConfigurationIdentity)
    ensures id == IdentityOf(c)
  {
    ghost var b5 := PutStableRunReset(c.stableRunReset, []);
    ghost var b4 := PutDispositions(c.dispositions, 0, b5);
    ghost var b3 := PutBackoff(c.backoff, b4);
    ghost var b2 := PutCooldown(c.cooldown, b3);
    ghost var b1 := PutBudget(c.budget, b2);
    var fp := new StableFingerprint();
    fp.WriteLe(CONFIGURATION_SCHEMA_VERSION, 2, b1);
    EncodeBudget(fp, c.budget, b2);
    EncodeCooldown(fp, c.cooldown, b3);
    EncodeBackoff(fp, c.backoff, b4);
    for i := 0 to |FAILURE_CLASSES|
      invariant fresh(fp)
      invariant Absorb(fp.Value(), PutDispositions(c.dispositions, i, b5)) == Absorb(START, ContentBytes(c))
    {
      ghost var rest := PutDispositions(c.dispositions, i + 1, b5);
      fp.WriteU8(i, PutDisposition(c.dispositions[i], rest));
      EncodeDisposition(fp, c.dispositions[i], rest);
    }
    EncodeStableRunReset(fp, c.stableRunReset, []);
    return ConfigurationIdentity(CONFIGURATION_SCHEMA_VERSION, c.version, Finish(fp.Value()));
  }

  lemma DurationKeepsOneByteApart(d: Duration, a: seq<u8>, b: seq<u8>)
    requires OneByteApart(a, b)
    ensures OneByteApart(PutDuration(d, a), PutDuration(d, b))
  {
    OneByteApartBehind(ToLe(d.nanos, 4), a, b);
    OneByteApartBehind(ToLe(d.secs, 8), Put(d.nanos, 4, a), Put(d.nanos, 4, b));
  }

  lemma CooldownKeepsOneByteApart(c: CooldownConfiguration, a: seq<u8>, b: seq<u8>)
    requires OneByteApart(a, b)
    ensures OneByteApart(PutCooldown(c, a), PutCooldown(c, b))
  {
    match c
    case CooldownDisabled => OneByteApartBehind([0], a, b);
    case CooldownRequired(minimum, reset) =>
      var a', b' := [ResetTag(reset)] + a, [ResetTag(reset)] + b;
      OneByteApartBehind([ResetTag(reset)], a, b);
      DurationKeepsOneByteApart(minimum, a', b');
      OneByteApartBehind([1], PutDuration(minimum, a'), PutDuration(minimum, b'));
  }

  lemma StrategyKeepsOneByteApart(s: BackoffDelayStrategy, a: seq<u8>, b: seq<u8>)
    requires OneByteApart(a, b)
    ensures OneByteApart(PutStrategy(s, a), PutStrategy(s, b))
  {
    match s
    case Fixed(delay) =>
      DurationKeepsOneByteApart(delay, a, b);
      OneByteApartBehind([0], PutDuration(delay, a), PutDuration(delay, b));
    case Linear(initial, increment) =>
      DurationKeepsOneByteApart(increment, a, b);
      var a', b' := PutDuration(increment, a), PutDuration(increment, b);
      DurationKeepsOneByteApart(initial, a', b');
      OneByteApartBehind([1], PutDuration(initial, a'), PutDuration(initial, b'));
    case Exponential(initial, multiplier) =>
      OneByteApartBehind(ToLe(multiplier, 4), a, b);
      var a', b' := Put(multiplier, 4, a), Put(multiplier, 4, b);
      DurationKeepsOneByteApart(initial, a', b');
      OneByteApartBehind([2], PutDuration(initial, a'), PutDuration(initial, b'));
  }

  lemma BackoffKeepsOneByteApart(k: BackoffConfiguration, a: seq<u8>, b: seq<u8>)
    requires OneByteApart(a, b)
    ensures OneByteApart(PutBackoff(k, a), PutBackoff(k, b))
  {
    match k
    case BackoffDisabled => OneByteApartBehind([0], a, b);
    case BackoffRequired(strategy, maximum, jitter, reset) =>
      var a1, b1 := [ResetTag(reset)] + a, [ResetTag(reset)] + b;
      OneByteApartBehind([ResetTag(reset)], a, b);
      var a2, b2 := PutJitter(jitter, a1), PutJitter(jitter, b1);
      match jitter {
        case JitterForbidden => OneByteApartBehind([0], a1, b1);
        case JitterRequired(limit) =>
          DurationKeepsOneByteApart(limit, a1, b1);
          OneByteApartBehind([1], PutDuration(limit, a1), PutDuration(limit, b1));
      }
      DurationKeepsOneByteApart(maximum, a2, b2);
      var a3, b3 := PutDuration(maximum, a2), PutDuration(maximum, b2);
      StrategyKeepsOneByteApart(strategy, a3, b3);
      OneByteApartBehind([1], PutStrategy(strategy, a3), PutStrategy(strategy, b3));
  }

  lemma DispositionKeepsOneByteApart(d: FailureDisposition, a: seq<u8>, b: seq<u8>)
    requires OneByteApart(a, b)
    ensures OneByteApart(PutDisposition(d, a), PutDisposition(d, b))
  {
    match d
    case Retryable => OneByteApartBehind([0], a, b);
    case NonRetryable => OneByteApartBehind([1], a, b);
    case AdditionalEvidenceRequired(requirement) =>
      OneByteApartBehind([RequirementTag(requirement)], a, b);
      OneByteApartBehind([2], [RequirementTag(requirement)] + a, [RequirementTag(requirement)] + b);
  }

  lemma TagsAreOneByteApart(d: FailureDisposition, e: FailureDisposition, rest: seq<u8>)
    requires {d, e} == {Retryable, NonRetryable}
    ensures OneByteApart(PutDisposition(d, rest), PutDisposition(e, rest))
  {
    assert d in {d, e} && e in {d, e};
    assert Retryable in {Retryable, NonRetryable} && NonRetryable in {Retryable, NonRetryable};
    assert DiffersOnlyAt(PutDisposition(d, rest), PutDisposition(e, rest), 0);
  }

  lemma {:induction false} ReclassifiedAreOneByteApart(
    ds: seq<FailureDisposition>, k: nat, d: FailureDisposition, from: nat, tail: seq<u8>)
    requires from <= k < |ds| <= 9
    requires {ds[k], d} == {Retryable, NonRetryable}
    ensures OneByteApart(PutDispositions(ds, from, tail), PutDispositions(ds[k := d], from, tail))
    decreases |ds| - from
  {
    var es := ds[k := d];
    var a, b := PutDispositions(ds, from + 1, tail), PutDispositions(es, from + 1, tail);
    if from == k {
      SameBefore(ds, es, k + 1, tail);
      TagsAreOneByteApart(ds[k], d, a);
    } else {
      ReclassifiedAreOneByteApart(ds, k, d, from + 1, tail);
      DispositionKeepsOneByteApart(ds[from], a, b);
    }
    OneByteApartBehind([from], PutDisposition(ds[from], a), PutDisposition(es[from], b));
  }

  lemma {:induction false} SameBefore(ds: seq<FailureDisposition>, es: seq<FailureDisposition>, from: nat, tail: seq<u8>)
    requires from <= |ds| == |es| <= 9 && ds[from..] == es[from..]
    ensures PutDispositions(ds, from, tail) == PutDispositions(es, from, tail)
    decreases |ds| - from
  {
    if from < |ds| {
      assert ds[from] == ds[from..][0] == es[from];
      assert ds[from + 1..] == ds[from..][1..] == es[from + 1..];
      SameBefore(ds, es, from + 1, tail);
    }
  }

  /** Turning one failure class from retryable to non-retryable, or back, changes the identity under the same version. */
  lemma ReclassificationChangesIdentity(c: RecoveryConfiguration, k: nat, d: FailureDisposition)
    requires k < 9 && {c.dispositions[k], d} == {Retryable, NonRetryable}
    ensures IdentityOf(c.(dispositions := c.dispositions[k := d])) != IdentityOf(c)
  {
    var b5 := PutStableRunReset(c.stableRunReset, []);
    var a4, b4 := PutDispositions(c.dispositions, 0, b5), PutDispositions(c.dispositions[k := d], 0, b5);
    ReclassifiedAreOneByteApart(c.dispositions, k, d, 0, b5);
    BackoffKeepsOneByteApart(c.backoff, a4, b4);
    var a3, b3 := PutBackoff(c.backoff, a4), PutBackoff(c.backoff, b4);
    CooldownKeepsOneByteApart(c.cooldown, a3, b3);
    var a2, b2 := PutCooldown(c.cooldown, a3), PutCooldown(c.cooldown, b3);
    var behavior: seq<u8> := [if c.budget.exhaustionBehavior.RemainStoppedUntilNewIntent? then 0 else 1];
    OneByteApartBehind(behavior, a2, b2);
    OneByteApartBehind(ToLe(c.budget.maximumAutomaticAttempts, 4), behavior + a2, behavior + b2);
    OneByteApartBehind(ToLe(CONFIGURATION_SCHEMA_VERSION, 2), PutBudget(c.budget, a2), PutBudget(c.budget, b2));
    OneChangedByteChangesFingerprint(
      START, ContentBytes(c), ContentBytes(c.(dispositions := c.dispositions[k := d])));
  }
}
