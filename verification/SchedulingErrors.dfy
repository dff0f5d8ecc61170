/** What a refused push says is so, of the first thing it finds at fault; and what it leaves behind. */
module SchedulingErrors {
  import opened Base
  import opened Rounding
  import opened Signal
  import opened Scheduling

  /** Where the stream stands before frame `k` of a batch. */
  function Before<S>(expected: Option<FrameTimestamp>, rate: PositiveU32, frames: seq<AudioFrame<S>>, k: nat):
    Option<FrameTimestamp>
    requires k < |frames|
  {
    if k == 0 then expected
    else
      match TimestampAfter(frames[k - 1].start, frames[k - 1].frameCount, rate)
      case Ok(end) => Some(end)
      case Err(_) => None
  }

  /** The error says of this frame, and of the place before it, what is so. */
  predicate Faults<S>(
    before: Option<FrameTimestamp>, rate: PositiveU32, channels: ChannelLayout, frame: AudioFrame<S>,
    error: SchedulingError)
  {
    match error
    case FormatChangedWithinStream => frame.sampleRate != rate || frame.channels != channels
    case FrameIndexDiscontinuity(expectedIndex, actualIndex) =>
      before.Some? && before.value.frameIndex == expectedIndex != actualIndex == frame.start.frameIndex
    case TimestampDiscontinuity(expectedNs, actualNs) =>
      && before.Some? && before.value.streamTimeNs == expectedNs && actualNs == frame.start.streamTimeNs
      && !(expectedNs - 1 <= actualNs <= expectedNs + 1)
    case TimestampOverflow =>
      || frame.start.frameIndex + frame.frameCount > U64_MAX
      || frame.start.streamTimeNs + NanosOf(frame.frameCount, rate) > U64_MAX
    case _ => false
  }

  ghost predicate FirstFault<S>(
    expected: Option<FrameTimestamp>, rate: PositiveU32, channels: ChannelLayout, frames: seq<AudioFrame<S>>,
    error: SchedulingError, k: nat)
  {
    && k < |frames|
    && CheckContinuity(expected, rate, channels, frames[..k]).Ok?
    && Faults(Before(expected, rate, frames, k), rate, channels, frames[k], error)
  }

  /** `u32` frames never take more nanoseconds than the product can hold. */
  lemma FramesFitProduct(frames: PositiveU32)
    ensures frames * NANOS_PER_SECOND <= U64_MAX
  {
  }

  lemma OneFrameFirst<S>(
    expected: Option<FrameTimestamp>, rate: PositiveU32, channels: ChannelLayout, frames: seq<AudioFrame<S>>)
    requires frames != []
    ensures var first := CheckContinuity(expected, rate, channels, frames[..1]);
            CheckContinuity(expected, rate, channels, frames)
            == if first.Err? then first else CheckContinuity(first.value, rate, channels, frames[1..])
    ensures var first := CheckContinuity(expected, rate, channels, frames[..1]);
            first.Ok? ==> first.value.Some? && TimestampAfter(frames[0].start, frames[0].frameCount, rate) == Ok(first.value.value)
  {
    assert frames[..1][0] == frames[0] && frames[..1][1..] == [];
  }

  lemma OneFrameFaults<S>(
    expected: Option<FrameTimestamp>, rate: PositiveU32, channels: ChannelLayout, frame: AudioFrame<S>)
    requires CheckContinuity(expected, rate, channels, [frame]).Err?
    ensures Faults(expected, rate, channels, frame, CheckContinuity(expected, rate, channels, [frame]).error)
  {
    FramesFitProduct(frame.frameCount);
    assert [frame][1..] == [];
  }

  lemma {:induction false} FaultIsFirst<S>(
    expected: Option<FrameTimestamp>, rate: PositiveU32, channels: ChannelLayout, frames: seq<AudioFrame<S>>)
    returns (k: nat)
    requires CheckContinuity(expected, rate, channels, frames).Err?
    ensures FirstFault(expected, rate, channels, frames, CheckContinuity(expected, rate, channels, frames).error, k)
    decreases |frames|
  {
    OneFrameFirst(expected, rate, channels, frames);
    var first := CheckContinuity(expected, rate, channels, frames[..1]);
    if first.Err? {
      k := 0;
      assert frames[..1] == [frames[0]] && frames[..0] == [];
      OneFrameFaults(expected, rate, channels, frames[0]);
    } else {
      var j := FaultIsFirst(first.value, rate, channels, frames[1..]);
      k := j + 1;
      var before := frames[..k];
      assert before[..1] == frames[..1] && before[1..] == frames[1..][..j];
      OneFrameFirst(expected, rate, channels, before);
      assert frames[1..][j] == frames[k];
      assert j > 0 ==> frames[1..][j - 1] == frames[k - 1];
    }
  }

  ghost predicate HasFirstFault<S>(
    expected: Option<FrameTimestamp>, rate: PositiveU32, channels: ChannelLayout, frames: seq<AudioFrame<S>>,
    error: SchedulingError)
  {
    exists k: nat :: FirstFault(expected, rate, channels, frames, error, k)
  }

  /** What each error of a refused batch says. */
  ghost predicate IsTrue<Id, S>(
    config: Config, s: Facts<Id, S>, id: Id, frames: seq<AudioFrame<S>>, error: SchedulingError)
    requires frames != []
  {
    var rate, total := frames[0].sampleRate, TotalFrames(frames);
    var limit := (2 * config.windowNanos * rate + NANOS_PER_SECOND) / (2 * NANOS_PER_SECOND) * config.maxWindowsPerPush;
    match error
    case StreamIdentityInvalidated => s.invalidStream == Some(id)
    case WindowFrameCountOutOfRange =>
      || 2 * config.windowNanos * rate < NANOS_PER_SECOND
      || 2 * config.windowNanos * rate >= (2 * U32_MAX + 1) * NANOS_PER_SECOND
    case OversizedInput(actualFrames, maximumFrames) => actualFrames == total && maximumFrames == limit && total > limit
    case InputFrameCountOverflow => total > U64_MAX || limit > U64_MAX
    case InvalidSignalData(_) => false
    case _ =>
      || (error.FormatChangedWithinStream? && s.activeStream == Some(id) && !HasFormat(s, rate, frames[0].channels))
      || HasFirstFault(if s.Switches(id) then None else s.expectedNext, rate, frames[0].channels, frames, error)
  }

  predicate HasFormat<Id(==), S>(s: Facts<Id, S>, rate: PositiveU32, channels: ChannelLayout) {
    s.sampleRate == Some(rate) && s.channels == Some(channels)
  }

  lemma WindowCount(windowNanos: WindowNanos, rate: PositiveU32)
    ensures (windowNanos * rate + NANOS_PER_SECOND / 2) / NANOS_PER_SECOND
         == (2 * windowNanos * rate + NANOS_PER_SECOND) / (2 * NANOS_PER_SECOND)
    ensures WindowFrameCount(windowNanos, rate).Err? ==>
              || 2 * windowNanos * rate < NANOS_PER_SECOND
              || 2 * windowNanos * rate >= (2 * U32_MAX + 1) * NANOS_PER_SECOND
  {
    var product := windowNanos * rate;
    assert 2 * windowNanos * rate == 2 * product;
  }

  /** Whatever a refused batch is told is so, of its first frame at fault; and a spent identity is always told so. */
  lemma RefusalIsTrue<Id, S>(config: Config, s: Facts<Id, S>, id: Id, frames: seq<AudioFrame<S>>)
    requires s.Sound() && frames != [] && Admit(config, s, id, frames).Err?
    ensures IsTrue(config, s, id, frames, Push(config, s, id, frames).result.error)
    ensures s.invalidStream == Some(id) ==> Push(config, s, id, frames).result.error == StreamIdentityInvalidated
  {
    var rate, channels := frames[0].sampleRate, frames[0].channels;
    var expected := if s.Switches(id) then None else s.expectedNext;
    WindowCount(config.windowNanos, rate);
    var checked := CheckContinuity(expected, rate, channels, frames);
    if checked.Err? {
      var k := FaultIsFirst(expected, rate, channels, frames);
      assert HasFirstFault(expected, rate, channels, frames, checked.error);
    }
  }

  /** An admitted batch can fail in one way only. */
  lemma OnlyTimeRunsOut<Id, S>(config: Config, s: Facts<Id, S>, id: Id, frames: seq<AudioFrame<S>>)
    requires s.Sound() && frames != [] && Admit(config, s, id, frames).Ok?
    ensures var pushed := Push(config, s, id, frames);
            pushed.result.Err? ==> pushed.result.error == TimestampOverflow && pushed.facts.activeStream == Some(id)
  {
  }

  /** The stream that follows a spent one is told it replaces it, and that nothing of it was dropped. */
  lemma SuccessorOfSpent<Id, S>(
    config: Config, s: Facts<Id, S>, id: Id, frames: seq<AudioFrame<S>>, later: Id, laterFrames: seq<AudioFrame<S>>)
    requires s.Sound() && frames != [] && laterFrames != [] && later != id
    requires Admit(config, s, id, frames).Err? && Admit(config, s, id, frames).error.invalidates
    requires Push(config, Push(config, s, id, frames).facts, later, laterFrames).result.Ok?
    ensures Push(config, Push(config, s, id, frames).facts, later, laterFrames).result.value.boundary
         == Some(StreamBoundary(id, later, 0))
  {
  }
}
