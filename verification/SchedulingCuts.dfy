/** What cutting windows keeps: every sample, in order, at its place on the stream's timeline. */
module SchedulingCuts {
  import opened Base
  import opened Rounding
  import opened Signal
  import opened Scheduling

  predicate IsCut<S>(cut: Cut, w: AudioFrame<S>) {
    && w.frameCount == cut.window && w.sampleRate == cut.rate && w.channels == cut.channels
    && |w.samples| == cut.Size()
  }

  predicate AreCuts<S>(cut: Cut, windows: seq<AudioFrame<S>>) {
    forall k :: 0 <= k < |windows| ==> IsCut(cut, windows[k])
  }

  lemma AreCutsAppend<S>(cut: Cut, a: seq<AudioFrame<S>>, b: seq<AudioFrame<S>>)
    requires AreCuts(cut, a) && AreCuts(cut, b)
    ensures AreCuts(cut, a + b)
  {
  }

  lemma CutsHaveOneSize<S>(cut: Cut, windows: seq<AudioFrame<S>>)
    requires AreCuts(cut, windows)
    ensures AllOfSize(windows, cut.Size())
  {
  }

  // ----- conservation -----

  lemma SamplesOfCons<S>(w: AudioFrame<S>, later: seq<AudioFrame<S>>, rest: seq<S>)
    ensures SamplesOf([w] + later) + rest == w.samples + (SamplesOf(later) + rest)
  {
    assert ([w] + later)[1..] == later;
    assert (w.samples + SamplesOf(later)) + rest == w.samples + (SamplesOf(later) + rest);
  }

  lemma {:induction false} DrainConserves<S>(cut: Cut, start: Option<FrameTimestamp>, samples: seq<S>)
    requires samples != [] ==> start.Some?
    ensures var d := Drain(cut, start, samples);
            && SamplesOf(d.windows) + d.samples == samples
            && AreCuts(cut, d.windows)
            && (!d.overflowed ==> |d.samples| < cut.Size())
    decreases |samples|
  {
    if |samples| >= cut.Size() {
      var window := AudioFrame(start.value, cut.window, cut.rate, cut.channels, samples[..cut.Size()]);
      var rest := samples[cut.Size()..];
      assert window.samples + rest == samples;
      var d := Drain(cut, start, samples);
      if d.windows == [window] {
        SamplesOfCons(window, [], rest);
      } else {
        var next := TimestampForFrameIndex(cut.origin, start.value.frameIndex + cut.window, cut.rate).value;
        var later := Drain(cut, Some(next), rest);
        DrainConserves(cut, Some(next), rest);
        SamplesOfCons(window, later.windows, later.samples);
      }
    }
  }

  lemma {:induction false} FeedConserves<S>(
    cut: Cut, start: Option<FrameTimestamp>, samples: seq<S>, frames: seq<AudioFrame<S>>)
    requires samples != [] ==> start.Some?
    requires |samples| < cut.Size()
    ensures var fed := Feed(cut, start, samples, frames);
            && AreCuts(cut, fed.windows)
            && (fed.samples != [] ==> fed.start.Some?)
            && (!fed.overflowed ==>
                  SamplesOf(fed.windows) + fed.samples == samples + SamplesOf(frames) && |fed.samples| < cut.Size())
    decreases |frames|
  {
    if frames != [] {
      var entered := if samples == [] then Some(frames[0].start) else start;
      var drained := Drain(cut, entered, samples + frames[0].samples);
      DrainConserves(cut, entered, samples + frames[0].samples);
      DrainKeepsStart(cut, entered, samples + frames[0].samples);
      if !drained.overflowed {
        var later := Feed(cut, drained.start, drained.samples, frames[1..]);
        FeedConserves(cut, drained.start, drained.samples, frames[1..]);
        SamplesOfAppend(drained.windows, later.windows);
        if !later.overflowed {
          Regroup(SamplesOf(drained.windows), SamplesOf(later.windows), later.samples, drained.samples,
                  SamplesOf(frames[1..]), samples, frames[0].samples);
        }
      }
    }
  }

  lemma Regroup<T>(a: seq<T>, b: seq<T>, r: seq<T>, d: seq<T>, f: seq<T>, s: seq<T>, g: seq<T>)
    requires a + d == s + g && b + r == d + f
    ensures (a + b) + r == s + (g + f)
  {
    assert (a + b) + r == a + (b + r) == a + (d + f) == (a + d) + f == (s + g) + f;
  }

  // ----- position -----

  /** The buffer holds exactly the frames from its start up to `end`. */
  predicate Covers<S>(cut: Cut, start: Option<FrameTimestamp>, samples: seq<S>, end: nat) {
    samples != [] ==>
      && start.Some? && start.value.frameIndex < end
      && |samples| == (end - start.value.frameIndex) * ChannelCount(cut.channels)
  }

  /** Where the next window will start. */
  function Front<S>(start: Option<FrameTimestamp>, samples: seq<S>, end: nat): nat
    requires samples != [] ==> start.Some?
  {
    if samples == [] then end else start.value.frameIndex
  }

  /** Each window starts where the one before it ends. */
  predicate Follow<S>(windows: seq<AudioFrame<S>>, first: nat)
    decreases |windows|
  {
    windows == [] ||
    (windows[0].start.frameIndex == first && Follow(windows[1..], first + windows[0].frameCount))
  }

  lemma FollowCons<S>(w: AudioFrame<S>, later: seq<AudioFrame<S>>)
    requires Follow(later, w.start.frameIndex + w.frameCount)
    ensures Follow([w] + later, w.start.frameIndex)
    ensures TotalFrames([w] + later) == w.frameCount + TotalFrames(later)
  {
    assert ([w] + later)[1..] == later;
  }

  lemma {:induction false} FollowAppend<S>(a: seq<AudioFrame<S>>, b: seq<AudioFrame<S>>, first: nat)
    requires Follow(a, first) && Follow(b, first + TotalFrames(a))
    ensures Follow(a + b, first)
    ensures TotalFrames(a + b) == TotalFrames(a) + TotalFrames(b)
    decreases |a|
  {
    if a == [] {
      assert a + b == b;
    } else {
      FollowAppend(a[1..], b, first + a[0].frameCount);
      assert (a + b)[1..] == a[1..] + b;
    }
  }

  /** Taking a window out of `held` frames leaves whole frames, and none only if it took them all. */
  lemma FramesLeft(held: nat, window: nat, count: PositiveU16)
    requires held * count >= window * count
    ensures held >= window
    ensures held * count - window * count == (held - window) * count
    ensures (held - window) * count == 0 ==> held == window
  {
    StrictMultiple(held - window, count);
  }

  /** Cutting from `first` on left the buffer covering what is not in a window, up to `end`. */
  predicate Positions<S>(cut: Cut, d: Drained<S>, first: nat, end: nat) {
    !d.overflowed ==>
      && (d.samples != [] ==> d.start.Some?)
      && Follow(d.windows, first)
      && Covers(cut, d.start, d.samples, end)
      && Front(d.start, d.samples, end) == first + TotalFrames(d.windows)
  }

  lemma {:induction false} DrainPositions<S>(cut: Cut, start: Option<FrameTimestamp>, samples: seq<S>, end: nat)
    requires samples != [] ==> start.Some?
    requires end <= U64_MAX && Covers(cut, start, samples, end)
    ensures Positions(cut, Drain(cut, start, samples), Front(start, samples, end), end)
    decreases |samples|
  {
    var d := Drain(cut, start, samples);
    if |samples| >= cut.Size() && !d.overflowed {
      var window := AudioFrame(start.value, cut.window, cut.rate, cut.channels, samples[..cut.Size()]);
      var rest := samples[cut.Size()..];
      var begin := start.value.frameIndex;
      FramesLeft(end - begin, cut.window, ChannelCount(cut.channels));
      if rest == [] {
        FollowCons(window, []);
      } else {
        var next := TimestampForFrameIndex(cut.origin, begin + cut.window, cut.rate).value;
        var later := Drain(cut, Some(next), rest);
        DrainPositions(cut, Some(next), rest, end);
        FollowCons(window, later.windows);
      }
    }
  }

  /** Batches that follow one another from `from` on. */
  predicate Contiguous<S>(cut: Cut, from: nat, frames: seq<AudioFrame<S>>)
    decreases |frames|
  {
    frames == [] ||
    (&& frames[0].start.frameIndex == from
     && frames[0].WellFormed() && frames[0].channels == cut.channels && frames[0].sampleRate == cut.rate
     && from + frames[0].frameCount <= U64_MAX
     && Contiguous(cut, from + frames[0].frameCount, frames[1..]))
  }

  lemma ExtendCover<S>(cut: Cut, start: Option<FrameTimestamp>, samples: seq<S>, frame: AudioFrame<S>)
    requires frame.WellFormed() && frame.channels == cut.channels
    requires Covers(cut, start, samples, frame.start.frameIndex)
    ensures var entered := if samples == [] then Some(frame.start) else start;
            && Covers(cut, entered, samples + frame.samples, frame.start.frameIndex + frame.frameCount)
            && Front(entered, samples + frame.samples, frame.start.frameIndex + frame.frameCount)
               == Front(start, samples, frame.start.frameIndex)
  {
    var count := ChannelCount(cut.channels);
    assert |frame.samples| == frame.frameCount * count > 0;
    if samples != [] {
      var held := frame.start.frameIndex - start.value.frameIndex;
      assert held * count + frame.frameCount * count == (held + frame.frameCount) * count;
    }
  }

  /** One batch entering the buffer: the windows cut follow on, and what is left covers up to its end. */
  lemma EntryPositions<S>(cut: Cut, start: Option<FrameTimestamp>, samples: seq<S>, frame: AudioFrame<S>, end: nat)
    requires samples != [] ==> start.Some?
    requires frame.WellFormed() && frame.channels == cut.channels && frame.start.frameIndex == end
    requires end + frame.frameCount <= U64_MAX && Covers(cut, start, samples, end)
    ensures var d := Drain(cut, if samples == [] then Some(frame.start) else start, samples + frame.samples);
            Positions(cut, d, Front(start, samples, end), end + frame.frameCount)
  {
    var entered := if samples == [] then Some(frame.start) else start;
    ExtendCover(cut, start, samples, frame);
    DrainPositions(cut, entered, samples + frame.samples, end + frame.frameCount);
  }

  lemma {:induction false} FeedPositions<S>(
    cut: Cut, start: Option<FrameTimestamp>, samples: seq<S>, frames: seq<AudioFrame<S>>, end: nat)
    requires samples != [] ==> start.Some?
    requires Covers(cut, start, samples, end) && Contiguous(cut, end, frames)
    ensures Positions(cut, Feed(cut, start, samples, frames), Front(start, samples, end), end + TotalFrames(frames))
    decreases |frames|, 0
  {
    if frames != [] {
      var entered := if samples == [] then Some(frames[0].start) else start;
      var drained := Drain(cut, entered, samples + frames[0].samples);
      EntryPositions(cut, start, samples, frames[0], end);
      DrainKeepsStart(cut, entered, samples + frames[0].samples);
      if !drained.overflowed {
        LaterPositions(cut, drained, frames[1..], Front(start, samples, end), end + frames[0].frameCount);
      }
    }
  }

  lemma {:induction false} LaterPositions<S>(
    cut: Cut, drained: Drained<S>, frames: seq<AudioFrame<S>>, first: nat, mid: nat)
    requires !drained.overflowed && (drained.samples != [] ==> drained.start.Some?)
    requires Positions(cut, drained, first, mid) && Contiguous(cut, mid, frames)
    ensures var later := Feed(cut, drained.start, drained.samples, frames);
            Positions(cut, later.(windows := drained.windows + later.windows), first, mid + TotalFrames(frames))
    decreases |frames|, 1
  {
    var later := Feed(cut, drained.start, drained.samples, frames);
    FeedPositions(cut, drained.start, drained.samples, frames, mid);
    JoinedPositions(cut, drained, later, first, mid, mid + TotalFrames(frames));
  }

  /** What two cuttings in a row leave, the second going on where the first stopped. */
  lemma JoinedPositions<S>(cut: Cut, a: Drained<S>, b: Drained<S>, first: nat, mid: nat, end: nat)
    requires !a.overflowed && (a.samples != [] ==> a.start.Some?)
    requires Positions(cut, a, first, mid) && Positions(cut, b, Front(a.start, a.samples, mid), end)
    ensures Positions(cut, b.(windows := a.windows + b.windows), first, end)
  {
    if !b.overflowed {
      FollowAppend(a.windows, b.windows, first);
    }
  }

  // ----- time -----

  /** Stamped as the frame's own time, rounded down to the nanosecond. */
  predicate Exact(rate: PositiveU32, t: FrameTimestamp) {
    t.streamTimeNs == NanosOf(t.frameIndex, rate)
  }

  predicate AllExact<S>(rate: PositiveU32, frames: seq<AudioFrame<S>>) {
    forall k :: 0 <= k < |frames| ==> Exact(rate, frames[k].start)
  }

  /** The origin lies on a whole nanosecond, so rounded times from it add up. */
  predicate OriginIsWhole(cut: Cut) {
    Exact(cut.rate, cut.origin) && (cut.origin.frameIndex * NANOS_PER_SECOND) % cut.rate == 0
  }

  lemma StampIsExact(cut: Cut, index: u64)
    requires OriginIsWhole(cut) && TimestampForFrameIndex(cut.origin, index, cut.rate).Ok?
    ensures Exact(cut.rate, TimestampForFrameIndex(cut.origin, index, cut.rate).value)
  {
    RoundingLosesAtMostOne(cut.origin.frameIndex, index - cut.origin.frameIndex, cut.rate);
  }

  lemma {:induction false} DrainExact<S>(cut: Cut, start: Option<FrameTimestamp>, samples: seq<S>)
    requires samples != [] ==> start.Some? && Exact(cut.rate, start.value)
    requires OriginIsWhole(cut)
    ensures var d := Drain(cut, start, samples);
            && AllExact(cut.rate, d.windows)
            && (d.samples != [] ==> d.start.Some? && Exact(cut.rate, d.start.value))
    decreases |samples|
  {
    if |samples| >= cut.Size() && samples[cut.Size()..] != [] && start.value.frameIndex + cut.window <= U64_MAX {
      var next := TimestampForFrameIndex(cut.origin, start.value.frameIndex + cut.window, cut.rate);
      if next.Ok? {
        StampIsExact(cut, start.value.frameIndex + cut.window);
        DrainExact(cut, Some(next.value), samples[cut.Size()..]);
      }
    }
  }

  lemma {:induction false} FeedExact<S>(
    cut: Cut, start: Option<FrameTimestamp>, samples: seq<S>, frames: seq<AudioFrame<S>>)
    requires samples != [] ==> start.Some? && Exact(cut.rate, start.value)
    requires OriginIsWhole(cut) && AllExact(cut.rate, frames)
    ensures var fed := Feed(cut, start, samples, frames);
            && AllExact(cut.rate, fed.windows)
            && (fed.samples != [] ==> fed.start.Some? && Exact(cut.rate, fed.start.value))
    decreases |frames|
  {
    if frames != [] {
      var entered := if samples == [] then Some(frames[0].start) else start;
      var drained := Drain(cut, entered, samples + frames[0].samples);
      DrainExact(cut, entered, samples + frames[0].samples);
      if !drained.overflowed {
        FeedExact(cut, drained.start, drained.samples, frames[1..]);
      }
    }
  }

  // ----- when the timeline runs out -----

  /** A window cannot begin here: the `u64` nanosecond product, the time itself or the index is out of range. */
  predicate Unstampable(cut: Cut, index: nat) {
    || index > U64_MAX
    || index < cut.origin.frameIndex
    || (index - cut.origin.frameIndex) * NANOS_PER_SECOND > U64_MAX
    || cut.origin.streamTimeNs + NanosOf(index - cut.origin.frameIndex, cut.rate) > U64_MAX
  }

  lemma UnstampableIff(cut: Cut, index: nat)
    ensures Unstampable(cut, index) <==>
            index > U64_MAX || TimestampForFrameIndex(cut.origin, index, cut.rate).Err?
  {
  }

  /** From a stream's zero the product alone decides. */
  lemma UnstampableFromZero(cut: Cut, index: nat)
    requires cut.origin == FrameTimestamp(0, 0)
    ensures Unstampable(cut, index) <==> index * NANOS_PER_SECOND > U64_MAX
  {
    NanosShrink(index, cut.rate);
  }

  /** The boundary before the `k`-th next window cannot be stamped although samples lie behind it. */
  predicate OverrunsAt(cut: Cut, index: nat, length: nat, k: nat) {
    k >= 1 && k * cut.Size() < length && Unstampable(cut, index + k * cut.window)
  }

  ghost predicate Overruns(cut: Cut, index: nat, length: nat) {
    exists k: nat :: OverrunsAt(cut, index, length, k)
  }

  lemma NextOverrun(cut: Cut, index: nat, length: nat, k: nat)
    requires length > cut.Size()
    ensures OverrunsAt(cut, index + cut.window, length - cut.Size(), k) <==> k >= 1 && OverrunsAt(cut, index, length, k + 1)
  {
    OneMore(k, cut.Size());
    OneMore(k, cut.window);
  }

  lemma OneMore(k: nat, n: nat)
    ensures (k + 1) * n == k * n + n
  {
  }

  lemma NoOverrunWithin(cut: Cut, index: nat, length: nat, k: nat)
    requires length <= cut.Size()
    ensures !OverrunsAt(cut, index, length, k)
  {
    if k >= 1 {
      OneMore(k - 1, cut.Size());
    }
  }

  /** Cutting stops exactly when some boundary inside the buffer, the first or any later one, cannot be stamped. */
  lemma {:induction false} DrainOverflowsIff<S>(cut: Cut, start: Option<FrameTimestamp>, samples: seq<S>)
    requires samples != [] ==> start.Some?
    ensures Drain(cut, start, samples).overflowed <==>
            samples != [] && Overruns(cut, start.value.frameIndex, |samples|)
    decreases |samples|
  {
    if samples != [] {
      var index, length := start.value.frameIndex, |samples|;
      if length <= cut.Size() {
        forall k: nat
          ensures !OverrunsAt(cut, index, length, k)
        {
          NoOverrunWithin(cut, index, length, k);
        }
      } else {
        FirstOrLaterOverrun(cut, index, length);
        UnstampableIff(cut, index + cut.window);
        if !Unstampable(cut, index + cut.window) {
          var next := TimestampForFrameIndex(cut.origin, index + cut.window, cut.rate).value;
          DrainOverflowsIff(cut, Some(next), samples[cut.Size()..]);
        }
      }
    }
  }

  lemma FirstOrLaterOverrun(cut: Cut, index: nat, length: nat)
    requires length > cut.Size()
    ensures Overruns(cut, index, length) <==>
            Unstampable(cut, index + cut.window) || Overruns(cut, index + cut.window, length - cut.Size())
  {
    if Overruns(cut, index, length) {
      var k: nat :| OverrunsAt(cut, index, length, k);
      if k > 1 {
        NextOverrun(cut, index, length, k - 1);
        assert OverrunsAt(cut, index + cut.window, length - cut.Size(), k - 1);
      }
    }
    if Unstampable(cut, index + cut.window) {
      assert OverrunsAt(cut, index, length, 1);
    }
    if Overruns(cut, index + cut.window, length - cut.Size()) {
      var k: nat :| OverrunsAt(cut, index + cut.window, length - cut.Size(), k);
      NextOverrun(cut, index, length, k);
      assert OverrunsAt(cut, index, length, k + 1);
    }
  }
}
