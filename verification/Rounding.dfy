/** Division that rounds down, and the nanoseconds that frame counts round to. */
module Rounding {
  import opened Base

  type Positive = x: int | 1 <= x witness 1

  /** Nanoseconds of a number of frames, rounded down. */
  function NanosOf(frames: nat, rate: Positive): nat {
    (frames * NANOS_PER_SECOND) / rate
  }

  lemma DivisionOfSum(a: nat, b: nat, d: Positive)
    ensures a / d + b / d <= (a + b) / d <= a / d + b / d + 1
    ensures a % d == 0 ==> (a + b) / d == a / d + b / d
  {
    Euclid(a, d);
    Euclid(b, d);
    SumOfEuclids(a, a / d, a % d, b, b / d, b % d, d);
  }

  lemma SumOfEuclids(a: nat, qa: nat, ra: nat, b: nat, qb: nat, rb: nat, d: Positive)
    requires a == qa * d + ra && b == qb * d + rb && ra < d && rb < d
    ensures (a + b) / d == if ra + rb < d then qa + qb else qa + qb + 1
  {
    var carry := if ra + rb < d then 0 else 1;
    Distribute(qa, qb, carry, d);
    QuotientIs(a + b, d, qa + qb + carry, ra + rb - carry * d);
  }

  lemma Distribute(a: nat, b: nat, c: nat, d: nat)
    ensures a * d + b * d + c * d == (a + b + c) * d
  {
  }

  lemma QuotientIs(n: nat, d: Positive, q: nat, r: nat)
    requires n == q * d + r && r < d
    ensures n / d == q
  {
    var q', r' := n / d, n % d;
    assert (q - q') * d == r' - r;
    StrictMultiple(q - q', d);
  }

  lemma StrictMultiple(m: int, d: Positive)
    ensures m >= 1 ==> m * d >= d
    ensures m <= -1 ==> m * d <= -(d as int)
  {
  }

  /** Rounded durations add up to the rounded sum, or fall one nanosecond short of it. */
  lemma RoundingLosesAtMostOne(frames: nat, more: nat, rate: Positive)
    ensures NanosOf(frames, rate) + NanosOf(more, rate) <= NanosOf(frames + more, rate)
                                                        <= NanosOf(frames, rate) + NanosOf(more, rate) + 1
    ensures (frames * NANOS_PER_SECOND) % rate == 0 ==>
              NanosOf(frames + more, rate) == NanosOf(frames, rate) + NanosOf(more, rate)
  {
    assert (frames + more) * NANOS_PER_SECOND == frames * NANOS_PER_SECOND + more * NANOS_PER_SECOND;
    DivisionOfSum(frames * NANOS_PER_SECOND, more * NANOS_PER_SECOND, rate);
  }

  /**
   Rounded times counted from an origin add up for every distance exactly when the origin lies on
   a whole nanosecond. The stream's own start, frame zero, always does.
   */
  lemma OriginAddsUpIff(origin: nat, rate: Positive)
    ensures (forall more: nat :: NanosOf(origin, rate) + NanosOf(more, rate) == NanosOf(origin + more, rate))
            <==> (origin * NANOS_PER_SECOND) % rate == 0
  {
    if (origin * NANOS_PER_SECOND) % rate == 0 {
      forall more: nat
        ensures NanosOf(origin, rate) + NanosOf(more, rate) == NanosOf(origin + more, rate)
      {
        RoundingLosesAtMostOne(origin, more, rate);
      }
    } else {
      var more := FallsShort(origin, rate);
    }
  }

  lemma FallsShort(origin: nat, rate: Positive) returns (more: nat)
    requires (origin * NANOS_PER_SECOND) % rate != 0
    ensures NanosOf(origin, rate) + NanosOf(more, rate) != NanosOf(origin + more, rate)
  {
    more := SplitProduct(origin, rate);
    RemaindersCarry(origin * NANOS_PER_SECOND, more * NANOS_PER_SECOND, origin * NANOS_PER_SECOND, rate);
  }

  /** A multiple of `d` made of two parts, the first not a multiple, carries from their remainders. */
  lemma RemaindersCarry(a: nat, b: nat, n: nat, d: Positive)
    requires a % d != 0 && a + b == n * d
    ensures a / d + b / d + 1 == (a + b) / d
  {
    Euclid(a, d);
    Euclid(b, d);
    RemaindersCarryOne(a, a / d, a % d, b, b / d, b % d, n, d);
  }

  lemma RemaindersCarryOne(a: nat, qa: nat, ra: nat, b: nat, qb: nat, rb: nat, n: nat, d: Positive)
    requires a == qa * d + ra && b == qb * d + rb && 0 < ra < d && rb < d && a + b == n * d
    ensures (a + b) / d == qa + qb + 1
  {
    SumOfEuclids(a, qa, ra, b, qb, rb, d);
    QuotientIs(a + b, d, n, 0);
    if ra + rb < d {
      Distribute(qa, qb, 0, d);
    }
  }

  lemma Euclid(n: nat, d: Positive)
    ensures (n / d) * d + n % d == n && n % d < d
  {
  }

  lemma SplitProduct(origin: nat, rate: Positive) returns (more: nat)
    ensures (origin + more) * NANOS_PER_SECOND == origin * NANOS_PER_SECOND + more * NANOS_PER_SECOND
    ensures origin * NANOS_PER_SECOND + more * NANOS_PER_SECOND == (origin * NANOS_PER_SECOND) * rate
  {
    more := origin * (rate - 1);
    assert more == origin * rate - origin;
    assert (origin * NANOS_PER_SECOND) * rate == (origin * rate) * NANOS_PER_SECOND;
  }

  lemma NanosShrink(frames: nat, rate: Positive)
    ensures NanosOf(frames, rate) <= frames * NANOS_PER_SECOND
  {
    QuotientShrinks(frames * NANOS_PER_SECOND, rate);
  }

  lemma QuotientShrinks(n: nat, d: Positive)
    ensures n / d <= n
  {
    Euclid(n, d);
    GrowsByFactor(n / d, d);
  }

  lemma GrowsByFactor(q: nat, d: Positive)
    ensures q * d >= q
  {
  }
}
