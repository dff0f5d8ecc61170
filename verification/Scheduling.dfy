/**
 Bounded scheduling of analysis windows (crates/resonance-core/src/scheduling.rs).

 `Push` says what one batch makes of the scheduler's facts; `WindowScheduler` is the object
 that drains its buffer in place. Stream identities and samples are opaque.
 */
module Scheduling {
  import opened Base
  import opened Rounding
  import opened Signal

  const TIMESTAMP_TOLERANCE_NS: u64 := 1
  const DEFAULT_WINDOW_NANOS: nat := 33_333_333
  const DEFAULT_MAX_WINDOWS: nat := 8

  /** Rust `Duration`s are below this many nanoseconds, so the `u128` products cannot overflow. */
  const DURATION_LIMIT_NANOS: nat := (U64_MAX + 1) * NANOS_PER_SECOND

  type WindowNanos = x: int | 1 <= x < DURATION_LIMIT_NANOS witness 1
  type MaxWindows = x: int | 1 <= x <= U64_MAX witness 1

  datatype Config = Config(windowNanos: WindowNanos, maxWindowsPerPush: MaxWindows)

  datatype SchedulingError =
    | WindowFrameCountOutOfRange
    | InputFrameCountOverflow
    | OversizedInput(actualFrames: u64, maximumFrames: u64)
    | StreamIdentityInvalidated
    | FormatChangedWithinStream
    | FrameIndexDiscontinuity(expectedIndex: u64, actualIndex: u64)
    | TimestampDiscontinuity(expectedNs: u64, actualNs: u64)
    | TimestampOverflow
    | InvalidSignalData(error: SignalDataError)

  datatype StreamBoundary<Id> = StreamBoundary(previous: Id, current: Id, discardedPartialFrames: nat)

  datatype SchedulingResult<Id, S> =
    SchedulingResult(windows: seq<AudioFrame<S>>, boundary: Option<StreamBoundary<Id>>)

  datatype Facts<Id(==), S> = Facts(
    activeStream: Option<Id>,
    invalidStream: Option<Id>,
    sampleRate: Option<PositiveU32>,
    channels: Option<ChannelLayout>,
    timelineOrigin: Option<FrameTimestamp>,
    expectedNext: Option<FrameTimestamp>,
    bufferStart: Option<FrameTimestamp>,
    samples: seq<S>)
  {
    /** The active stream's format and origin are known together; a buffered sample has a start. */
    predicate Sound() {
      && (sampleRate.Some? <==> channels.Some?)
      && (sampleRate.Some? <==> timelineOrigin.Some?)
      && (sampleRate.Some? ==> activeStream.Some?)
      && (sampleRate.None? ==> samples == [] && expectedNext.None?)
      && (samples != [] ==> bufferStart.Some?)
    }

    /** No uninterrupted stream is in progress: nothing pushed yet, or the last one was invalidated. */
    predicate IsBlank() {
      sampleRate.None?
    }

    predicate Switches(id: Id) {
      activeStream.Some? && activeStream.value != id
    }

    /** A push of this identity starts from an empty buffer. */
    predicate Begins(id: Id) {
      Switches(id) || activeStream.None?
    }

    function BufferedFrameCount(): nat {
      match channels
      case Some(layout) => |samples| / ChannelCount(layout)
      case None => 0
    }
  }

  function InitialFacts<Id(==), S>(): Facts<Id, S> {
    Facts(None, None, None, None, None, None, None, [])
  }

  // ----- arithmetic -----

  function WindowFrameCount(windowNanos: WindowNanos, rate: PositiveU32): Result<PositiveU32, SchedulingError> {
    var rounded := (windowNanos * rate + NANOS_PER_SECOND / 2) / NANOS_PER_SECOND;
    if rounded == 0 || rounded > U32_MAX then Err(WindowFrameCountOutOfRange) else Ok(rounded)
  }

  /** The window is the whole number of frames nearest to the wanted duration. */
  lemma WindowIsNearest(windowNanos: WindowNanos, rate: PositiveU32)
    requires WindowFrameCount(windowNanos, rate).Ok?
    ensures var w := WindowFrameCount(windowNanos, rate).value;
            -(NANOS_PER_SECOND / 2) <= windowNanos * rate - w * NANOS_PER_SECOND < NANOS_PER_SECOND / 2
  {
  }

  function TimestampAfter(start: FrameTimestamp, frames: nat, rate: PositiveU32): Result<FrameTimestamp, SchedulingError> {
    if frames * NANOS_PER_SECOND > U64_MAX
       || start.streamTimeNs + NanosOf(frames, rate) > U64_MAX
       || start.frameIndex + frames > U64_MAX then Err(TimestampOverflow)
    else Ok(FrameTimestamp(start.frameIndex + frames, start.streamTimeNs + NanosOf(frames, rate)))
  }

  function TimestampForFrameIndex(origin: FrameTimestamp, index: u64, rate: PositiveU32):
    Result<FrameTimestamp, SchedulingError>
  {
    if index < origin.frameIndex then Err(TimestampOverflow)
    else TimestampAfter(origin, index - origin.frameIndex, rate)
  }

  function AbsDiff(a: u64, b: u64): u64 {
    if a >= b then a - b else b - a
  }

  // ----- admission of a batch -----

  function TotalFrames<S>(frames: seq<AudioFrame<S>>): nat {
    if frames == [] then 0 else frames[0].frameCount + TotalFrames(frames[1..])
  }

  /** Each frame keeps the format and starts where the previous one ended; yields the end of the last. */
  function CheckContinuity<S>(
    expected: Option<FrameTimestamp>, rate: PositiveU32, channels: ChannelLayout, frames: seq<AudioFrame<S>>):
    Result<Option<FrameTimestamp>, SchedulingError>
    decreases |frames|
  {
    if frames == [] then Ok(expected)
    else
      var frame := frames[0];
      if frame.sampleRate != rate || frame.channels != channels then Err(FormatChangedWithinStream)
      else if expected.Some? && frame.start.frameIndex != expected.value.frameIndex then
        Err(FrameIndexDiscontinuity(expected.value.frameIndex, frame.start.frameIndex))
      else if expected.Some?
              && AbsDiff(frame.start.streamTimeNs, expected.value.streamTimeNs) > TIMESTAMP_TOLERANCE_NS then
        Err(TimestampDiscontinuity(expected.value.streamTimeNs, frame.start.streamTimeNs))
      else
        var end :- TimestampAfter(frame.start, frame.frameCount, rate);
        CheckContinuity(Some(end), rate, channels, frames[1..])
  }

  /** A batch turned away before continuity is looked at; `invalidates` says whether the identity is spent. */
  datatype Refusal = Refusal(error: SchedulingError, invalidates: bool)

  function WindowFor<S>(config: Config, frames: seq<AudioFrame<S>>): Result<PositiveU32, SchedulingError>
    requires frames != []
  {
    WindowFrameCount(config.windowNanos, frames[0].sampleRate)
  }

  function Admit<Id(==), S>(config: Config, s: Facts<Id, S>, id: Id, frames: seq<AudioFrame<S>>):
    Result<Option<FrameTimestamp>, Refusal>
    requires frames != []
  {
    var rate, channels := frames[0].sampleRate, frames[0].channels;
    if s.invalidStream == Some(id) then Err(Refusal(StreamIdentityInvalidated, false))
    else
      match WindowFor(config, frames)
      case Err(error) => Err(Refusal(error, false))
      case Ok(window) =>
        if s.activeStream == Some(id) && (s.sampleRate != Some(rate) || s.channels != Some(channels)) then
          Err(Refusal(FormatChangedWithinStream, true))
        else if TotalFrames(frames) > U64_MAX || window * config.maxWindowsPerPush > U64_MAX then
          Err(Refusal(InputFrameCountOverflow, false))
        else if TotalFrames(frames) > window * config.maxWindowsPerPush then
          Err(Refusal(OversizedInput(TotalFrames(frames), window * config.maxWindowsPerPush), false))
        else
          match CheckContinuity(if s.Switches(id) then None else s.expectedNext, rate, channels, frames)
          case Err(error) => Err(Refusal(error, true))
          case Ok(expected) => Ok(expected)
  }

  // ----- cutting windows -----

  datatype Drained<S> =
    Drained(windows: seq<AudioFrame<S>>, samples: seq<S>, start: Option<FrameTimestamp>, overflowed: bool)

  /** What a stream's format and position fix about every window cut from it. */
  datatype Cut = Cut(origin: FrameTimestamp, rate: PositiveU32, channels: ChannelLayout, window: PositiveU32) {
    function Size(): (n: nat)
      ensures n >= 1
    {
      window * ChannelCount(channels)
    }
  }

  /** Windows are cut from the front of the buffer until less than one is left. */
  function Drain<S>(cut: Cut, start: Option<FrameTimestamp>, samples: seq<S>): Drained<S>
    requires samples != [] ==> start.Some?
    decreases |samples|
  {
    if |samples| < cut.Size() then Drained([], samples, start, false)
    else
      var window := AudioFrame(start.value, cut.window, cut.rate, cut.channels, samples[..cut.Size()]);
      var rest := samples[cut.Size()..];
      if rest == [] then Drained([window], [], None, false)
      else if start.value.frameIndex + cut.window > U64_MAX then Drained([window], rest, start, true)
      else
        match TimestampForFrameIndex(cut.origin, start.value.frameIndex + cut.window, cut.rate)
        case Err(_) => Drained([window], rest, start, true)
        case Ok(next) =>
          var later := Drain(cut, Some(next), rest);
          later.(windows := [window] + later.windows)
  }

  /** Batches enter the buffer one by one; a batch entering an empty buffer brings its own start. */
  function Feed<S>(cut: Cut, start: Option<FrameTimestamp>, samples: seq<S>, frames: seq<AudioFrame<S>>): Drained<S>
    requires samples != [] ==> start.Some?
    decreases |frames|
  {
    if frames == [] then Drained([], samples, start, false)
    else
      var entered := if samples == [] then Some(frames[0].start) else start;
      var drained := Drain(cut, entered, samples + frames[0].samples);
      if drained.overflowed then drained
      else
        DrainKeepsStart(cut, entered, samples + frames[0].samples);
        var later := Feed(cut, drained.start, drained.samples, frames[1..]);
        later.(windows := drained.windows + later.windows)
  }

  lemma {:induction false} DrainKeepsStart<S>(cut: Cut, start: Option<FrameTimestamp>, samples: seq<S>)
    requires samples != [] ==> start.Some?
    ensures var d := Drain(cut, start, samples); d.samples != [] ==> d.start.Some?
    decreases |samples|
  {
    if |samples| >= cut.Size() && samples[cut.Size()..] != [] && start.value.frameIndex + cut.window <= U64_MAX {
      var next := TimestampForFrameIndex(cut.origin, start.value.frameIndex + cut.window, cut.rate);
      if next.Ok? {
        DrainKeepsStart(cut, Some(next.value), samples[cut.Size()..]);
      }
    }
  }

  // ----- one push -----

  function Invalidate<Id(==), S>(id: Id): Facts<Id, S> {
    InitialFacts<Id, S>().(activeStream := Some(id), invalidStream := Some(id))
  }

  /** The facts a push works on once it is admitted: a beginning stream drops what was there. */
  function Enter<Id(==), S>(s: Facts<Id, S>, id: Id, first: AudioFrame<S>): Facts<Id, S> {
    if s.Begins(id) then
      Facts(Some(id), None, Some(first.sampleRate), Some(first.channels), Some(first.start), None, None, [])
    else s
  }

  function CutOf<Id(==), S>(config: Config, s: Facts<Id, S>): Result<Cut, SchedulingError>
    requires s.Sound() && !s.IsBlank()
  {
    var window :- WindowFrameCount(config.windowNanos, s.sampleRate.value);
    Ok(Cut(s.timelineOrigin.value, s.sampleRate.value, s.channels.value, window))
  }

  datatype Pushed<Id(==), S> = Pushed(facts: Facts<Id, S>, result: Result<SchedulingResult<Id, S>, SchedulingError>)

  function Push<Id(==), S>(config: Config, s: Facts<Id, S>, id: Id, frames: seq<AudioFrame<S>>): Pushed<Id, S>
    requires s.Sound()
  {
    if frames == [] then Pushed(s, Ok(SchedulingResult([], None)))
    else
      match Admit(config, s, id, frames)
      case Err(refusal) => Pushed(if refusal.invalidates then Invalidate(id) else s, Err(refusal.error))
      case Ok(expected) =>
        var entered := Enter(s, id, frames[0]);
        var boundary :=
          if s.Switches(id) then Some(StreamBoundary(s.activeStream.value, id, s.BufferedFrameCount())) else None;
        var cut := Cut(entered.timelineOrigin.value, frames[0].sampleRate, frames[0].channels,
                       WindowFor(config, frames).value);
        var fed := Feed(cut, entered.bufferStart, entered.samples, frames);
        var next := entered.(samples := fed.samples, bufferStart := fed.start);
        if fed.overflowed then Pushed(next, Err(TimestampOverflow))
        else Pushed(next.(expectedNext := expected), Ok(SchedulingResult(fed.windows, boundary)))
  }
}
