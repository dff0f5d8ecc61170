/** Exactly when a push runs out of timestamps, and what becomes of its stream. */
module SchedulingLimits {
  import opened Base
  import opened Rounding
  import opened Signal
  import opened Scheduling
  import opened SchedulingCuts
  import opened SchedulingRuns

  /** A frame where a window ends, for windows that follow from `front`. */
  predicate IsBoundary(window: PositiveU32, front: nat, m: nat) {
    m >= front && (m - front) % window == 0
  }

  predicate TearsAt(cut: Cut, front: nat, begin: nat, end: nat, m: nat) {
    begin < m < end && IsBoundary(cut.window, front, m) && Unstampable(cut, m)
  }

  /** Some boundary strictly inside these frames cannot be stamped. */
  ghost predicate Tears(cut: Cut, front: nat, begin: nat, end: nat) {
    exists m: nat :: TearsAt(cut, front, begin, end, m)
  }

  lemma BoundaryIs(window: PositiveU32, front: nat, k: nat)
    ensures IsBoundary(window, front, front + k * window)
  {
    FramesModulo(k, window);
  }

  lemma FramesModulo(k: nat, window: PositiveU32)
    ensures (k * window) % window == 0 && (k * window) / window == k
  {
    QuotientIs(k * window, window, k, 0);
    Euclid(k * window, window);
  }

  lemma BoundaryNumber(window: PositiveU32, front: nat, m: nat)
    requires IsBoundary(window, front, m)
    ensures m == front + ((m - front) / window) * window
    ensures m > front ==> (m - front) / window >= 1
  {
    Euclid(m - front, window);
  }

  lemma LongerIff(k: nat, window: nat, held: nat, count: PositiveU16)
    ensures k * (window * count) < held * count <==> k * window < held
  {
    assert k * (window * count) == (k * window) * count;
    StrictMultiple(held - k * window, count);
    StrictMultiple(k * window - held, count);
    assert (held - k * window) * count == held * count - (k * window) * count;
  }

  /** In frames: the buffer reaches from `begin` to `end`, and a boundary inside it cannot be stamped. */
  lemma OverrunsIffTears(cut: Cut, begin: nat, end: nat)
    requires begin <= end
    ensures Overruns(cut, begin, (end - begin) * ChannelCount(cut.channels)) <==> Tears(cut, begin, begin, end)
  {
    var length := (end - begin) * ChannelCount(cut.channels);
    if Overruns(cut, begin, length) {
      var k: nat :| OverrunsAt(cut, begin, length, k);
      OverrunTears(cut, begin, end, k);
    }
    if Tears(cut, begin, begin, end) {
      var m: nat :| TearsAt(cut, begin, begin, end, m);
      TearOverruns(cut, begin, end, m);
    }
  }

  lemma OverrunTears(cut: Cut, begin: nat, end: nat, k: nat)
    requires begin <= end && OverrunsAt(cut, begin, (end - begin) * ChannelCount(cut.channels), k)
    ensures TearsAt(cut, begin, begin, end, begin + k * cut.window)
  {
    LongerIff(k, cut.window, end - begin, ChannelCount(cut.channels));
    BoundaryIs(cut.window, begin, k);
    GrowsByFactor(k, cut.window);
  }

  lemma TearOverruns(cut: Cut, begin: nat, end: nat, m: nat)
    requires begin <= end && TearsAt(cut, begin, begin, end, m)
    ensures OverrunsAt(cut, begin, (end - begin) * ChannelCount(cut.channels), (m - begin) / cut.window)
  {
    BoundaryNumber(cut.window, begin, m);
    LongerIff((m - begin) / cut.window, cut.window, end - begin, ChannelCount(cut.channels));
  }

  /** No boundary lies between the start of a part window and the end of its frames. */
  lemma HeldHasNoBoundary(window: PositiveU32, front: nat, begin: nat, m: nat)
    requires front <= begin < front + window && front < m <= begin
    ensures !IsBoundary(window, front, m)
  {
    if IsBoundary(window, front, m) {
      BoundaryNumber(window, front, m);
      GrowsByFactor(window, (m - front) / window);
    }
  }

  lemma EntryTearsIff(cut: Cut, front: nat, begin: nat, end: nat)
    requires front <= begin < front + cut.window
    ensures Tears(cut, front, front, end) <==> Tears(cut, front, begin, end)
  {
    if Tears(cut, front, front, end) {
      var m: nat :| TearsAt(cut, front, front, end, m);
      if m <= begin {
        HeldHasNoBoundary(cut.window, front, begin, m);
      }
      assert TearsAt(cut, front, begin, end, m);
    }
    if Tears(cut, front, begin, end) {
      var m: nat :| TearsAt(cut, front, begin, end, m);
      assert TearsAt(cut, front, front, end, m);
    }
  }

  /** One batch entering a buffer of less than a window. */
  lemma EntryOverflowsIff<S>(cut: Cut, start: Option<FrameTimestamp>, samples: seq<S>, frame: AudioFrame<S>)
    requires samples != [] ==> start.Some?
    requires frame.WellFormed() && frame.channels == cut.channels && |samples| < cut.Size()
    requires Covers(cut, start, samples, frame.start.frameIndex)
    ensures Drain(cut, if samples == [] then Some(frame.start) else start, samples + frame.samples).overflowed <==>
            Tears(cut, Front(start, samples, frame.start.frameIndex), frame.start.frameIndex,
                  frame.start.frameIndex + frame.frameCount)
  {
    var entered := if samples == [] then Some(frame.start) else start;
    var begin, end := frame.start.frameIndex, frame.start.frameIndex + frame.frameCount;
    var front := Front(start, samples, begin);
    ExtendCover(cut, start, samples, frame);
    HeldIsLessThanWindow(cut, start, samples, begin);
    assert samples + frame.samples != [] by {
      GrowsByFactor(frame.frameCount, ChannelCount(frame.channels));
    }
    DrainOverflowsIff(cut, entered, samples + frame.samples);
    OverrunsIffTears(cut, front, end);
    EntryTearsIff(cut, front, begin, end);
  }

  // ----- whole batches -----

  /** Frame `j` of the batch strictly contains a boundary that cannot be stamped. */
  ghost predicate TearsFrame<S>(cut: Cut, front: nat, frames: seq<AudioFrame<S>>, j: nat) {
    j < |frames| && Tears(cut, front, frames[j].start.frameIndex, frames[j].start.frameIndex + frames[j].frameCount)
  }

  ghost predicate TearsAny<S>(cut: Cut, front: nat, frames: seq<AudioFrame<S>>) {
    exists j: nat :: TearsFrame(cut, front, frames, j)
  }

  lemma SameBoundary(window: PositiveU32, front: nat, count: nat, m: nat)
    requires m >= front + count * window
    ensures IsBoundary(window, front + count * window, m) <==> IsBoundary(window, front, m)
  {
    var rest := m - (front + count * window);
    FramesModulo(count, window);
    DivisionOfSum(count * window, rest, window);
    Euclid(rest, window);
    Euclid(count * window + rest, window);
    SumOfEuclids(count * window, count, 0, rest, rest / window, rest % window, window);
    assert (count * window + rest) % window == rest % window by {
      Distribute(count, rest / window, 0, window);
    }
  }

  lemma SameTears(cut: Cut, front: nat, count: nat, begin: nat, end: nat)
    requires begin >= front + count * cut.window
    ensures Tears(cut, front + count * cut.window, begin, end) <==> Tears(cut, front, begin, end)
  {
    var later := front + count * cut.window;
    if Tears(cut, later, begin, end) {
      var m: nat :| TearsAt(cut, later, begin, end, m);
      SameBoundary(cut.window, front, count, m);
      assert TearsAt(cut, front, begin, end, m);
    }
    if Tears(cut, front, begin, end) {
      var m: nat :| TearsAt(cut, front, begin, end, m);
      SameBoundary(cut.window, front, count, m);
      assert TearsAt(cut, later, begin, end, m);
    }
  }

  lemma {:induction false} ContiguousStartsLater<S>(cut: Cut, from: nat, frames: seq<AudioFrame<S>>, j: nat)
    requires Contiguous(cut, from, frames) && j < |frames|
    ensures frames[j].start.frameIndex >= from
    decreases j
  {
    if j > 0 {
      ContiguousStartsLater(cut, from + frames[0].frameCount, frames[1..], j - 1);
    }
  }

  lemma SameTearsLater<S>(cut: Cut, front: nat, count: nat, from: nat, frames: seq<AudioFrame<S>>)
    requires Contiguous(cut, from, frames) && from >= front + count * cut.window
    ensures TearsAny(cut, front + count * cut.window, frames) <==> TearsAny(cut, front, frames)
  {
    forall j: nat | j < |frames|
      ensures TearsFrame(cut, front + count * cut.window, frames, j) <==> TearsFrame(cut, front, frames, j)
    {
      ContiguousStartsLater(cut, from, frames, j);
      SameTears(cut, front, count, frames[j].start.frameIndex, frames[j].start.frameIndex + frames[j].frameCount);
    }
    if TearsAny(cut, front, frames) {
      var j: nat :| TearsFrame(cut, front, frames, j);
      assert TearsFrame(cut, front + count * cut.window, frames, j);
    }
    if TearsAny(cut, front + count * cut.window, frames) {
      var j: nat :| TearsFrame(cut, front + count * cut.window, frames, j);
      assert TearsFrame(cut, front, frames, j);
    }
  }

  lemma FirstOrLaterTears<S>(cut: Cut, front: nat, frames: seq<AudioFrame<S>>)
    requires frames != []
    ensures TearsAny(cut, front, frames) <==> TearsFrame(cut, front, frames, 0) || TearsAny(cut, front, frames[1..])
  {
    if TearsAny(cut, front, frames) {
      var j: nat :| TearsFrame(cut, front, frames, j);
      if j > 0 {
        assert frames[1..][j - 1] == frames[j];
        assert TearsFrame(cut, front, frames[1..], j - 1);
      }
    }
    if TearsAny(cut, front, frames[1..]) {
      var j: nat :| TearsFrame(cut, front, frames[1..], j);
      assert frames[1..][j] == frames[j + 1];
      assert TearsFrame(cut, front, frames, j + 1);
    }
  }

  /** Feeding a batch stops exactly when one of its frames strictly contains such a boundary. */
  lemma {:induction false} FeedOverflowsIff<S>(
    cut: Cut, start: Option<FrameTimestamp>, samples: seq<S>, frames: seq<AudioFrame<S>>, from: nat)
    requires samples != [] ==> start.Some?
    requires |samples| < cut.Size() && Covers(cut, start, samples, from) && Contiguous(cut, from, frames)
    ensures Feed(cut, start, samples, frames).overflowed <==> TearsAny(cut, Front(start, samples, from), frames)
    decreases |frames|, 0
  {
    if frames != [] {
      var entered := if samples == [] then Some(frames[0].start) else start;
      var drained := Drain(cut, entered, samples + frames[0].samples);
      var front := Front(start, samples, from);
      EntryOverflowsIff(cut, start, samples, frames[0]);
      FirstOrLaterTears(cut, front, frames);
      if !drained.overflowed {
        DrainKeepsStart(cut, entered, samples + frames[0].samples);
        DrainConserves(cut, entered, samples + frames[0].samples);
        EntryPositions(cut, start, samples, frames[0], from);
        LaterOverflowsIff(cut, drained, front, from + frames[0].frameCount, frames[1..]);
      }
    }
  }

  lemma {:induction false} LaterOverflowsIff<S>(
    cut: Cut, drained: Drained<S>, front: nat, mid: nat, frames: seq<AudioFrame<S>>)
    requires !drained.overflowed && (drained.samples != [] ==> drained.start.Some?)
    requires |drained.samples| < cut.Size() && Positions(cut, drained, front, mid) && AreCuts(cut, drained.windows)
    requires Contiguous(cut, mid, frames)
    ensures Feed(cut, drained.start, drained.samples, frames).overflowed <==> TearsAny(cut, front, frames)
    decreases |frames|, 1
  {
    FeedOverflowsIff(cut, drained.start, drained.samples, frames, mid);
    TotalOfCuts(cut, drained.windows);
    HeldIsLessThanWindow(cut, drained.start, drained.samples, mid);
    SameTearsLater(cut, front, |drained.windows|, mid, frames);
  }

  // ----- pushes that run out -----

  /** An admitted push fails exactly when one of its frames strictly contains a boundary that cannot be stamped. */
  lemma PushRunsOutIff<Id, S>(config: Config, s: Facts<Id, S>, id: Id, frames: seq<AudioFrame<S>>)
    requires Ready(config, s, id) && AllWellFormed(frames) && frames != [] && Admit(config, s, id, frames).Ok?
    ensures !s.Begins(id) ==> s.expectedNext.Some?
    ensures Push(config, s, id, frames).result.Err? <==>
            TearsAny(PushCut(config, s, id, frames),
                     if s.Begins(id) then frames[0].start.frameIndex else NextWindowStart(s), frames)
  {
    var entered, cut := Enter(s, id, frames[0]), PushCut(config, s, id, frames);
    EntryCovers(config, s, id, frames);
    FeedOverflowsIff(cut, entered.bufferStart, entered.samples, frames, frames[0].start.frameIndex);
  }

  /** What stays of a stream after such a push: its format, and the end of the last push that succeeded. */
  lemma TornFacts<Id, S>(config: Config, s: Facts<Id, S>, id: Id, frames: seq<AudioFrame<S>>)
    requires Ready(config, s, id) && AllWellFormed(frames) && frames != [] && Admit(config, s, id, frames).Ok?
    requires Push(config, s, id, frames).result.Err?
    ensures var torn := Push(config, s, id, frames).facts;
            && torn.Sound() && torn.activeStream == Some(id) && torn.invalidStream.None?
            && torn.sampleRate == Some(frames[0].sampleRate) && torn.channels == Some(frames[0].channels)
            && torn.expectedNext == (if s.Begins(id) then None else s.expectedNext)
  {
    PushKeepsSound(config, s, id, frames);
    EntryCovers(config, s, id, frames);
  }

  lemma {:induction false} FramesAdvance<S>(frames: seq<AudioFrame<S>>)
    requires frames != []
    ensures TotalFrames(frames) >= 1
  {
  }

  /**
   The batch that goes on from there is refused exactly if the stream was already in progress. A
   stream that ran out on its very first push takes it, as if nothing had been received.
   */
  lemma TornStreamRefusesIff<Id, S>(
    config: Config, s: Facts<Id, S>, id: Id, frames: seq<AudioFrame<S>>, following: seq<AudioFrame<S>>)
    requires Ready(config, s, id) && AllWellFormed(frames) && frames != [] && Admit(config, s, id, frames).Ok?
    requires Push(config, s, id, frames).result.Err?
    requires following != [] && Admit(config, InitialFacts(), id, following).Ok?
    requires following[0].sampleRate == frames[0].sampleRate && following[0].channels == frames[0].channels
    requires following[0].start.frameIndex == frames[0].start.frameIndex + TotalFrames(frames)
    ensures Push(config, s, id, frames).facts.Sound()
    ensures Admit(config, Push(config, s, id, frames).facts, id, following).Err? <==> !s.Begins(id)
    ensures !s.Begins(id) ==> Push(config, Push(config, s, id, frames).facts, id, following).facts == Invalidate(id)
  {
    var torn := Push(config, s, id, frames).facts;
    TornFacts(config, s, id, frames);
    EntryCovers(config, s, id, frames);
    FramesAdvance(frames);
    AdmittedIff(config, InitialFacts(), id, following);
    AdmittedIff(config, torn, id, following);
    if !s.Begins(id) {
      assert torn.expectedNext.value.frameIndex == frames[0].start.frameIndex;
      RefusedForIndex(config, torn, id, following);
    }
  }

  lemma RefusedForIndex<Id, S>(config: Config, s: Facts<Id, S>, id: Id, frames: seq<AudioFrame<S>>)
    requires s.Sound() && frames != [] && s.activeStream == Some(id) && s.invalidStream.None?
    requires s.sampleRate == Some(frames[0].sampleRate) && s.channels == Some(frames[0].channels)
    requires Admit(config, InitialFacts(), id, frames).Ok?
    requires s.expectedNext.Some? && s.expectedNext.value.frameIndex != frames[0].start.frameIndex
    ensures Push(config, s, id, frames).facts == Invalidate(id)
  {
  }

  /** Pushing the failed batch of a continuing stream again passes every check, although its tail is still buffered. */
  lemma FailedBatchIsAdmittedAgain<Id, S>(config: Config, s: Facts<Id, S>, id: Id, frames: seq<AudioFrame<S>>)
    requires Ready(config, s, id) && AllWellFormed(frames) && frames != [] && Admit(config, s, id, frames).Ok?
    requires Push(config, s, id, frames).result.Err?
    ensures Push(config, s, id, frames).facts.Sound()
    ensures Admit(config, Push(config, s, id, frames).facts, id, frames).Ok?
    ensures Push(config, s, id, frames).facts.samples != []
  {
    var entered, cut := Enter(s, id, frames[0]), PushCut(config, s, id, frames);
    TornFacts(config, s, id, frames);
    AdmittedIff(config, s, id, frames);
    AdmittedIff(config, Push(config, s, id, frames).facts, id, frames);
    EntryCovers(config, s, id, frames);
    TornFeedKeepsSamples(cut, entered.bufferStart, entered.samples, frames);
  }

  lemma {:induction false} TornFeedKeepsSamples<S>(
    cut: Cut, start: Option<FrameTimestamp>, samples: seq<S>, frames: seq<AudioFrame<S>>)
    requires samples != [] ==> start.Some?
    requires Feed(cut, start, samples, frames).overflowed
    ensures Feed(cut, start, samples, frames).samples != []
    decreases |frames|
  {
    var entered := if samples == [] then Some(frames[0].start) else start;
    var drained := Drain(cut, entered, samples + frames[0].samples);
    DrainKeepsStart(cut, entered, samples + frames[0].samples);
    if drained.overflowed {
      TornDrainKeepsSamples(cut, entered, samples + frames[0].samples);
    } else {
      TornFeedKeepsSamples(cut, drained.start, drained.samples, frames[1..]);
    }
  }

  lemma {:induction false} TornDrainKeepsSamples<S>(cut: Cut, start: Option<FrameTimestamp>, samples: seq<S>)
    requires samples != [] ==> start.Some?
    requires Drain(cut, start, samples).overflowed
    ensures Drain(cut, start, samples).samples != []
    decreases |samples|
  {
    if start.value.frameIndex + cut.window <= U64_MAX {
      var next := TimestampForFrameIndex(cut.origin, start.value.frameIndex + cut.window, cut.rate);
      if next.Ok? {
        TornDrainKeepsSamples(cut, Some(next.value), samples[cut.Size()..]);
      }
    }
  }

  // ----- a window under the wrong label -----

  const LATE_CONFIG := Config(1, 8)

  /** Mono audio at 4 GHz, so a window of 4 frames, stamped at the end of the timeline. */
  function Late(first: u64, samples: seq<int>): AudioFrame<int>
    requires 1 <= |samples| <= U32_MAX
  {
    AudioFrame(FrameTimestamp(first, U64_MAX), |samples|, 4_000_000_000, Discrete(1), samples)
  }

  function LateFacts(samples: seq<int>): Facts<int, int> {
    Facts(Some(7), None, Some(4_000_000_000), Some(Discrete(1)), Some(FrameTimestamp(0, U64_MAX)), None,
          Some(FrameTimestamp(0, U64_MAX)), samples)
  }

  /** The first push runs out inside its second frame: frames 0 to 3 are lost, 4 and 5 stay, labelled frame 0. */
  lemma FirstPushRunsOut()
    ensures Push(LATE_CONFIG, InitialFacts<int, int>(), 7, [Late(0, [0, 1, 2]), Late(3, [3, 4, 5])])
         == Pushed(LateFacts([4, 5]), Err(TimestampOverflow))
  {
    var f1, f2 := Late(0, [0, 1, 2]), Late(3, [3, 4, 5]);
    var frames, cut := [f1, f2], Cut(f1.start, f1.sampleRate, Discrete(1), 4);
    assert frames[1..] == [f2] && [f2][1..] == [];
    assert TotalFrames([f2]) == 3 && TotalFrames(frames) == 6;
    assert WindowFrameCount(1, 4_000_000_000) == Ok(4);
    assert CheckContinuity(Some(FrameTimestamp(3, U64_MAX)), f1.sampleRate, Discrete(1), [f2]).Ok?;
    var none: seq<int> := [];
    assert none + f1.samples == [0, 1, 2] && [0, 1, 2] + f2.samples == [0, 1, 2, 3, 4, 5];
    assert [0, 1, 2, 3, 4, 5][cut.Size()..] == [4, 5];
    assert TimestampForFrameIndex(f1.start, 4, 4_000_000_000).Err?;
    assert Drain(cut, Some(f1.start), [0, 1, 2, 3, 4, 5]).overflowed;
  }

  /** The next push succeeds, and its window carries the frames 4 to 7. */
  lemma NextPushSucceeds()
    ensures LateFacts([4, 5]).Sound()
    ensures var pushed := Push(LATE_CONFIG, LateFacts([4, 5]), 7, [Late(6, [6, 7])]);
            pushed.result.Ok? && pushed.result.value.windows == [Late(0, [4, 5, 6, 7])]
  {
    var f, cut := Late(6, [6, 7]), Cut(FrameTimestamp(0, U64_MAX), 4_000_000_000, Discrete(1), 4);
    assert [f][1..] == [] && TotalFrames([f]) == 2;
    assert WindowFrameCount(1, 4_000_000_000) == Ok(4);
    assert CheckContinuity(None, f.sampleRate, Discrete(1), [f]).Ok?;
    assert Feed(cut, Some(cut.origin), [4, 5], [f]) == Drained([Late(0, [4, 5, 6, 7])], [], None, false) by {
      WholeWindow(cut, cut.origin, [4, 5, 6, 7]);
      assert [4, 5] + [6, 7] == [4, 5, 6, 7];
    }
  }

  lemma WholeWindow<S>(cut: Cut, start: FrameTimestamp, samples: seq<S>)
    requires |samples| == cut.Size()
    ensures Drain(cut, Some(start), samples)
         == Drained([AudioFrame(start, cut.window, cut.rate, cut.channels, samples)], [], None, false)
  {
    assert samples[..cut.Size()] == samples && samples[cut.Size()..] == [];
  }

  /**
   Two pushes of a new stream: the first runs out of timestamps and fails, the second goes on where
   it ended, is accepted, and yields a window labelled frame 0 that carries the frames 4 to 7.
   */
  lemma MislabelledWindow(first: Pushed<int, int>)
    requires first == Push(LATE_CONFIG, InitialFacts<int, int>(), 7, [Late(0, [0, 1, 2]), Late(3, [3, 4, 5])])
    ensures first.result == Err(TimestampOverflow) && first.facts.Sound()
    ensures var second := Push(LATE_CONFIG, first.facts, 7, [Late(6, [6, 7])]);
            second.result.Ok? && second.result.value.windows == [Late(0, [4, 5, 6, 7])]
  {
    FirstPushRunsOut();
    NextPushSucceeds();
  }
}
