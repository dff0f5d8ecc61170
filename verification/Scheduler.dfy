/** The window scheduler as an object that drains its buffer in place (crates/resonance-core/src/scheduling.rs). */
module Scheduler {
  import opened Base
  import opened Signal
  import opened Scheduling
  import opened SchedulingRuns

  class WindowScheduler<Id(==), S> {
    const config: Config
    var activeStream: Option<Id>
    var invalidStream: Option<Id>
    var sampleRate: Option<PositiveU32>
    var channels: Option<ChannelLayout>
    var timelineOrigin: Option<FrameTimestamp>
    var expectedNext: Option<FrameTimestamp>
    var bufferStart: Option<FrameTimestamp>
    var samples: seq<S>

    function Value(): Facts<Id, S>
      reads this
    {
      Facts(activeStream, invalidStream, sampleRate, channels, timelineOrigin, expectedNext, bufferStart, samples)
    }

    constructor (config: Config)
      ensures this.config == config && Value() == InitialFacts() && Value().Sound()
    {
      this.config := config;
      activeStream, invalidStream, sampleRate, channels := None, None, None, None;
      timelineOrigin, expectedNext, bufferStart, samples := None, None, None, [];
    }

    /** Pushes zero or more contiguous batches of one stream. */
    method PushBatch(id: Id, frames: seq<AudioFrame<S>>) returns (r: Result<SchedulingResult<Id, S>, SchedulingError>)
      requires Value().Sound() && AllWellFormed(frames)
      modifies this
      ensures Value() == Push(config, old(Value()), id, frames).facts
      ensures r == Push(config, old(Value()), id, frames).result
      ensures Value().Sound()
    {
      PushKeepsSound(config, Value(), id, frames);
      if frames == [] {
        return Ok(SchedulingResult([], None));
      }
      if invalidStream == Some(id) {
        return Err(StreamIdentityInvalidated);
      }
      var streamChanged := activeStream.Some? && activeStream.value != id;
      var rate, layout := frames[0].sampleRate, frames[0].channels;
      var window :- WindowFrameCount(config.windowNanos, rate);
      if !streamChanged && activeStream.Some? && (sampleRate != Some(rate) || channels != Some(layout)) {
        InvalidateStream(id);
        return Err(FormatChangedWithinStream);
      }
      var total :- SumFrames(frames);
      if window * config.maxWindowsPerPush > U64_MAX {
        return Err(InputFrameCountOverflow);
      }
      var maximum := window * config.maxWindowsPerPush;
      if total > maximum {
        return Err(OversizedInput(total, maximum));
      }
      var checked := CheckFrames(if streamChanged then None else expectedNext, rate, layout, frames);
      if checked.Err? {
        InvalidateStream(id);
        return Err(checked.error);
      }
      r := CutWindows(id, frames, window, checked.value);
    }

    method SumFrames(frames: seq<AudioFrame<S>>) returns (r: Result<u64, SchedulingError>)
      ensures r == if TotalFrames(frames) > U64_MAX then Err(InputFrameCountOverflow) else Ok(TotalFrames(frames))
    {
      var total: u64 := 0;
      for i := 0 to |frames|
        invariant TotalFrames(frames) == total + TotalFrames(frames[i..])
      {
        assert frames[i..][1..] == frames[i + 1..];
        total :- CheckedAdd(total, frames[i].frameCount, InputFrameCountOverflow);
      }
      return Ok(total);
    }

    method CheckFrames(
      start: Option<FrameTimestamp>, rate: PositiveU32, layout: ChannelLayout, frames: seq<AudioFrame<S>>)
      returns (r: Result<Option<FrameTimestamp>, SchedulingError>)
      ensures r == CheckContinuity(start, rate, layout, frames)
    {
      var expected := start;
      for i := 0 to |frames|
        invariant CheckContinuity(start, rate, layout, frames) == CheckContinuity(expected, rate, layout, frames[i..])
      {
        var frame := frames[i];
        assert frames[i..][0] == frame && frames[i..][1..] == frames[i + 1..];
        if frame.sampleRate != rate || frame.channels != layout {
          return Err(FormatChangedWithinStream);
        }
        if expected.Some? {
          if frame.start.frameIndex != expected.value.frameIndex {
            return Err(FrameIndexDiscontinuity(expected.value.frameIndex, frame.start.frameIndex));
          }
          if AbsDiff(frame.start.streamTimeNs, expected.value.streamTimeNs) > TIMESTAMP_TOLERANCE_NS {
            return Err(TimestampDiscontinuity(expected.value.streamTimeNs, frame.start.streamTimeNs));
          }
        }
        var end :- TimestampAfter(frame.start, frame.frameCount, rate);
        expected := Some(end);
      }
      return Ok(expected);
    }

    /** Enters the stream, then buffers each batch and drains every complete window. */
    method CutWindows(id: Id, frames: seq<AudioFrame<S>>, window: PositiveU32, expected: Option<FrameTimestamp>)
      returns (r: Result<SchedulingResult<Id, S>, SchedulingError>)
      requires Value().Sound() && AllWellFormed(frames) && frames != []
      requires Admit(config, Value(), id, frames) == Ok(expected) && WindowFor(config, frames) == Ok(window)
      modifies this
      ensures Value() == Push(config, old(Value()), id, frames).facts
      ensures r == Push(config, old(Value()), id, frames).result
    {
      var streamChanged := activeStream.Some? && activeStream.value != id;
      var discarded := Value().BufferedFrameCount();
      var boundary := if streamChanged then Some(StreamBoundary(activeStream.value, id, discarded)) else None;
      EnterStream(id, frames[0]);
      var cut := Cut(timelineOrigin.value, frames[0].sampleRate, frames[0].channels, window);
      var overflowed, windows := FeedBatches(cut, frames);
      if overflowed {
        return Err(TimestampOverflow);
      }
      expectedNext := expected;
      return Ok(SchedulingResult(windows, boundary));
    }

    /** Buffers each batch and drains every complete window before the next one enters. */
    method FeedBatches(cut: Cut, frames: seq<AudioFrame<S>>) returns (overflowed: bool, windows: seq<AudioFrame<S>>)
      requires samples != [] ==> bufferStart.Some?
      modifies `samples, `bufferStart
      ensures Feed(cut, old(bufferStart), old(samples), frames) == Drained(windows, samples, bufferStart, overflowed)
    {
      windows := [];
      ghost var fed := Feed(cut, bufferStart, samples, frames);
      for i := 0 to |frames|
        invariant samples != [] ==> bufferStart.Some?
        invariant fed == Prefixed(windows, Feed(cut, bufferStart, samples, frames[i..]))
      {
        assert frames[i..][0] == frames[i] && frames[i..][1..] == frames[i + 1..];
        if samples == [] {
          bufferStart := Some(frames[i].start);
        }
        samples := samples + frames[i].samples;
        DrainKeepsStart(cut, bufferStart, samples);
        var failed, drained := DrainBuffer(cut);
        if failed {
          return true, windows + drained;
        }
        ghost var later := Feed(cut, bufferStart, samples, frames[i + 1..]).windows;
        Associative(windows, drained, later);
        windows := windows + drained;
      }
      return false, windows;
    }

    /** Drains complete windows from the front of the buffer. */
    method DrainBuffer(cut: Cut) returns (overflowed: bool, windows: seq<AudioFrame<S>>)
      requires samples != [] ==> bufferStart.Some?
      modifies `samples, `bufferStart
      ensures Drain(cut, old(bufferStart), old(samples)) == Drained(windows, samples, bufferStart, overflowed)
    {
      windows := [];
      ghost var drained := Drain(cut, bufferStart, samples);
      while |samples| >= cut.Size()
        invariant samples != [] ==> bufferStart.Some?
        invariant drained == Prefixed(windows, Drain(cut, bufferStart, samples))
        decreases |samples|
      {
        var start := bufferStart.value;
        var taken := samples[..cut.Size()];
        samples := samples[cut.Size()..];
        var output := NewFrame(start, cut.rate, cut.channels, taken);
        NewFrameOfWholeFrames(start, cut.window, cut.rate, cut.channels, taken);
        assert output.Ok?;
        ghost var before := windows;
        windows := windows + [output.value];
        if samples == [] {
          bufferStart := None;
        } else {
          if start.frameIndex + cut.window > U64_MAX {
            return true, windows;
          }
          var next := TimestampForFrameIndex(cut.origin, start.frameIndex + cut.window, cut.rate);
          if next.Err? {
            return true, windows;
          }
          bufferStart := Some(next.value);
        }
        assert before + ([output.value] + Drain(cut, bufferStart, samples).windows)
            == windows + Drain(cut, bufferStart, samples).windows;
      }
      return false, windows;
    }

    method EnterStream(id: Id, first: AudioFrame<S>)
      modifies this
      ensures Value() == Enter(old(Value()), id, first)
    {
      if activeStream.None? || activeStream.value != id {
        ClearStreamState();
        activeStream := Some(id);
        invalidStream := None;
        sampleRate := Some(first.sampleRate);
        channels := Some(first.channels);
        timelineOrigin := Some(first.start);
      }
    }

    method InvalidateStream(id: Id)
      modifies this
      ensures Value() == Invalidate(id)
    {
      ClearStreamState();
      activeStream := Some(id);
      invalidStream := Some(id);
    }

    method ClearStreamState()
      modifies this
      ensures Value() == InitialFacts<Id, S>().(activeStream := old(activeStream), invalidStream := old(invalidStream))
    {
      sampleRate := None;
      channels := None;
      timelineOrigin := None;
      expectedNext := None;
      bufferStart := None;
      samples := [];
    }
  }

  function Prefixed<S>(windows: seq<AudioFrame<S>>, d: Drained<S>): Drained<S> {
    d.(windows := windows + d.windows)
  }
}
