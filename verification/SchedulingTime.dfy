/** When emitted windows carry the exact time of their first frame, and when batching shows. */
module SchedulingTime {
  import opened Base
  import opened Rounding
  import opened Signal
  import opened Scheduling
  import opened SchedulingCuts
  import opened SchedulingRuns

  predicate BufferIsExact<Id(==), S>(s: Facts<Id, S>) {
    s.Sound() && (s.samples != [] ==> Exact(s.sampleRate.value, s.bufferStart.value))
  }

  lemma PushIsExact<Id, S>(config: Config, s: Facts<Id, S>, id: Id, frames: seq<AudioFrame<S>>)
    requires Ready(config, s, id) && frames != [] && Push(config, s, id, frames).result.Ok?
    requires s.Begins(id) || BufferIsExact(s)
    requires OriginIsWhole(PushCut(config, s, id, frames)) && AllExact(frames[0].sampleRate, frames)
    ensures BufferIsExact(Push(config, s, id, frames).facts)
    ensures AllExact(frames[0].sampleRate, Push(config, s, id, frames).result.value.windows)
  {
    var entered, cut := Enter(s, id, frames[0]), PushCut(config, s, id, frames);
    PushKeepsSound(config, s, id, frames);
    FeedExact(cut, entered.bufferStart, entered.samples, frames);
  }

  lemma ExactParts<S>(rate: PositiveU32, a: seq<AudioFrame<S>>, b: seq<AudioFrame<S>>)
    ensures AllExact(rate, a + b) <==> AllExact(rate, a) && AllExact(rate, b)
  {
    if AllExact(rate, a + b) {
      forall k | 0 <= k < |a|
        ensures Exact(rate, a[k].start)
      {
        assert (a + b)[k] == a[k];
      }
      forall k | 0 <= k < |b|
        ensures Exact(rate, b[k].start)
      {
        assert (a + b)[|a| + k] == b[k];
      }
    }
  }

  /** A stream of exactly stamped batches, begun on a whole nanosecond, is cut into exactly stamped windows. */
  lemma {:induction false} RunIsExact<Id, S>(
    config: Config, states: seq<Facts<Id, S>>, batches: seq<Batch<Id, S>>, n: nat)
    requires IsPushRun(config, states, batches) && n <= |batches| && !IsTorn(config, states, batches, n)
    requires Whole(config, states[n]) && !states[n].IsBlank()
    requires AllExact(states[n].sampleRate.value, CurrentInput(config, states, batches, n))
    requires OriginIsWhole(CutOf(config, states[n]).value)
    ensures BufferIsExact(states[n])
    ensures AllExact(states[n].sampleRate.value, CurrentWindows(config, states, batches, n))
  {
    if n > 0 {
      var s, b := states[n - 1], batches[n - 1];
      match EffectOf(config, s, b)
      case Kept =>
        RunIsExact(config, states, batches, n - 1);
      case Begun =>
        PushConserves(config, s, b.id, b.frames);
        PushIsExact(config, s, b.id, b.frames);
      case Continued =>
        RunConserves(config, states, batches, n - 1);
        PushConserves(config, s, b.id, b.frames);
        ContinuingIsNotBlank(config, s, b.id, b.frames);
        ExactParts(s.sampleRate.value, CurrentInput(config, states, batches, n - 1), b.frames);
        RunIsExact(config, states, batches, n - 1);
        PushIsExact(config, s, b.id, b.frames);
        ExactParts(s.sampleRate.value, CurrentWindows(config, states, batches, n - 1), Emitted(config, s, b));
      case _ =>
    }
  }

  /** With exact stamps and a whole origin, batching does not even show in the window times. */
  lemma ExactBatchingDoesNotMatter<Id, S>(
    config: Config,
    states: seq<Facts<Id, S>>, batches: seq<Batch<Id, S>>, n: nat,
    states': seq<Facts<Id, S>>, batches': seq<Batch<Id, S>>, n': nat)
    requires IsPushRun(config, states, batches) && n <= |batches| && !IsTorn(config, states, batches, n)
    requires IsPushRun(config, states', batches') && n' <= |batches'| && !IsTorn(config, states', batches', n')
    requires !states[n].IsBlank() && !states'[n'].IsBlank()
    requires Whole(config, states[n]) && Whole(config, states'[n'])
    requires SamplesOf(CurrentInput(config, states, batches, n)) == SamplesOf(CurrentInput(config, states', batches', n'))
    requires states[n].timelineOrigin == states'[n'].timelineOrigin
    requires states[n].sampleRate == states'[n'].sampleRate && states[n].channels == states'[n'].channels
    requires AllExact(states[n].sampleRate.value, CurrentInput(config, states, batches, n))
    requires AllExact(states[n].sampleRate.value, CurrentInput(config, states', batches', n'))
    requires OriginIsWhole(CutOf(config, states[n]).value)
    ensures CurrentWindows(config, states, batches, n) == CurrentWindows(config, states', batches', n')
  {
    BatchingDoesNotMatter(config, states, batches, n, states', batches', n');
    RunIsExact(config, states, batches, n);
    RunIsExact(config, states', batches', n');
    var windows, windows' := CurrentWindows(config, states, batches, n), CurrentWindows(config, states', batches', n');
    forall k | 0 <= k < |windows|
      ensures windows[k] == windows'[k]
    {
      assert SameBesidesTime(windows[k], windows'[k]);
      assert Exact(states[n].sampleRate.value, windows[k].start);
      assert Exact(states[n].sampleRate.value, windows'[k].start);
    }
  }

  // ----- exactly stamped batches are accepted -----

  /** The expected start is the exact time or one nanosecond before it: inside the tolerance. */
  predicate NearlyExact(rate: PositiveU32, t: FrameTimestamp) {
    t.streamTimeNs <= NanosOf(t.frameIndex, rate) <= t.streamTimeNs + TIMESTAMP_TOLERANCE_NS
  }

  lemma EndIsNearlyExact(rate: PositiveU32, start: FrameTimestamp, frames: nat)
    requires Exact(rate, start) && (start.frameIndex + frames) * NANOS_PER_SECOND <= U64_MAX
    ensures TimestampAfter(start, frames, rate).Ok? && NearlyExact(rate, TimestampAfter(start, frames, rate).value)
  {
    RoundingLosesAtMostOne(start.frameIndex, frames, rate);
    NanosShrink(start.frameIndex + frames, rate);
  }

  /** Contiguous, exactly stamped batches never trip the index or the timestamp check. */
  lemma {:induction false} ExactIsContinuous<S>(
    cut: Cut, expected: Option<FrameTimestamp>, from: nat, frames: seq<AudioFrame<S>>)
    requires Contiguous(cut, from, frames) && AllExact(cut.rate, frames)
    requires (from + TotalFrames(frames)) * NANOS_PER_SECOND <= U64_MAX
    requires expected.Some? ==> expected.value.frameIndex == from && NearlyExact(cut.rate, expected.value)
    ensures var checked := CheckContinuity(expected, cut.rate, cut.channels, frames);
            checked.Ok? && (checked.value.Some? ==> NearlyExact(cut.rate, checked.value.value))
    decreases |frames|
  {
    if frames != [] {
      EndIsNearlyExact(cut.rate, frames[0].start, frames[0].frameCount);
      var end := TimestampAfter(frames[0].start, frames[0].frameCount, cut.rate).value;
      assert AllExact(cut.rate, frames[1..]) by {
        ExactParts(cut.rate, [frames[0]], frames[1..]);
        assert frames == [frames[0]] + frames[1..];
      }
      ExactIsContinuous(cut, Some(end), from + frames[0].frameCount, frames[1..]);
    }
  }

  // ----- batching shows otherwise -----

  const THIRD_CONFIG := Config(333_333_333, 8)

  function Thirds(first: nat, count: PositiveU32, samples: seq<int>): AudioFrame<int>
    requires first * NANOS_PER_SECOND <= U64_MAX
  {
    NanosShrink(first, 3);
    AudioFrame(FrameTimestamp(first, NanosOf(first, 3)), count, 3, Discrete(1), samples)
  }

  /**
   A stream joined at frame 1 of 3 Hz audio: the same three exactly stamped frames, pushed as one
   batch or as three, give third windows one nanosecond apart.
   */
  lemma JoinedStreamShowsItsBatching(id: int)
    ensures var whole := Push(THIRD_CONFIG, InitialFacts<int, int>(), id, [Thirds(1, 3, [7, 8, 9])]);
            var split := Push(THIRD_CONFIG, InitialFacts<int, int>(), id,
                              [Thirds(1, 1, [7]), Thirds(2, 1, [8]), Thirds(3, 1, [9])]);
            && whole.result.Ok? && |whole.result.value.windows| == 3
            && split.result.Ok? && |split.result.value.windows| == 3
            && whole.result.value.windows[2].start == FrameTimestamp(3, 999_999_999)
            && split.result.value.windows[2].start == FrameTimestamp(3, 1_000_000_000)
  {
    var cut := Cut(FrameTimestamp(1, 333_333_333), 3, Discrete(1), 1);
    assert WindowFrameCount(333_333_333, 3) == Ok(1);
    WholeBatch(cut, id);
    SplitBatches(cut, id);
  }

  lemma WholeBatch(cut: Cut, id: int)
    requires cut == Cut(FrameTimestamp(1, 333_333_333), 3, Discrete(1), 1)
    ensures var whole := Push(THIRD_CONFIG, InitialFacts<int, int>(), id, [Thirds(1, 3, [7, 8, 9])]);
            && whole.result.Ok? && |whole.result.value.windows| == 3
            && whole.result.value.windows[2].start == FrameTimestamp(3, 999_999_999)
  {
    var frames := [Thirds(1, 3, [7, 8, 9])];
    assert frames[1..] == [];
    assert TotalFrames(frames) == 3;
    assert CheckContinuity(None, 3, Discrete(1), frames).Ok?;
    var e: seq<int> := [];
    assert e + [7, 8, 9] == [7, 8, 9];
    DrainThree(cut);
    assert Feed(cut, None, e, frames).windows == Drain(cut, Some(FrameTimestamp(1, 333_333_333)), [7, 8, 9]).windows;
  }

  lemma DrainThree(cut: Cut)
    requires cut == Cut(FrameTimestamp(1, 333_333_333), 3, Discrete(1), 1)
    ensures var d := Drain(cut, Some(FrameTimestamp(1, 333_333_333)), [7, 8, 9]);
            !d.overflowed && d.samples == [] && |d.windows| == 3
            && d.windows[2].start == FrameTimestamp(3, 999_999_999)
  {
    assert [7, 8, 9][1..] == [8, 9] && [8, 9][1..] == [9];
    OneWindow(cut, FrameTimestamp(3, 999_999_999), 9);
    var d1 := Drain(cut, Some(FrameTimestamp(2, 666_666_666)), [8, 9]);
    assert d1.windows[1].start == FrameTimestamp(3, 999_999_999) && |d1.windows| == 2 && !d1.overflowed;
  }

  lemma SplitBatches(cut: Cut, id: int)
    requires cut == Cut(FrameTimestamp(1, 333_333_333), 3, Discrete(1), 1)
    ensures var split := Push(THIRD_CONFIG, InitialFacts<int, int>(), id,
                              [Thirds(1, 1, [7]), Thirds(2, 1, [8]), Thirds(3, 1, [9])]);
            && split.result.Ok? && |split.result.value.windows| == 3
            && split.result.value.windows[2].start == FrameTimestamp(3, 1_000_000_000)
  {
    var f1, f2, f3 := Thirds(1, 1, [7]), Thirds(2, 1, [8]), Thirds(3, 1, [9]);
    var frames := [f1, f2, f3];
    assert frames[1..] == [f2, f3] && [f2, f3][1..] == [f3] && [f3][1..] == [];
    assert TotalFrames([f3]) == 1 && TotalFrames([f2, f3]) == 2 && TotalFrames(frames) == 3;
    assert CheckContinuity(Some(FrameTimestamp(3, 999_999_999)), 3, Discrete(1), [f3]).Ok?;
    assert CheckContinuity(Some(FrameTimestamp(2, 666_666_666)), 3, Discrete(1), [f2, f3]).Ok?;
    assert CheckContinuity(None, 3, Discrete(1), frames).Ok?;
    OneWindow(cut, f3.start, 9);
    OneWindow(cut, f2.start, 8);
    OneWindow(cut, f1.start, 7);
    var e: seq<int> := [];
    assert e + [7] == [7] && e + [8] == [8] && e + [9] == [9];
    var g3 := Feed(cut, None, e, [f3]);
    var g2 := Feed(cut, None, e, [f2, f3]);
    var g1 := Feed(cut, None, e, frames);
    assert g3.windows[0].start == f3.start && |g3.windows| == 1 && !g3.overflowed;
    assert g2.windows[1..] == g3.windows && |g2.windows| == 2 && !g2.overflowed;
    assert g1.windows[1..] == g2.windows && |g1.windows| == 3 && !g1.overflowed;
  }

  lemma OneWindow(cut: Cut, start: FrameTimestamp, sample: int)
    requires cut.channels == Discrete(1) && cut.window == 1
    ensures Drain(cut, Some(start), [sample])
         == Drained([AudioFrame(start, 1, cut.rate, Discrete(1), [sample])], [], None, false)
  {
    assert [sample][..1] == [sample] && [sample][1..] == [];
  }
}
