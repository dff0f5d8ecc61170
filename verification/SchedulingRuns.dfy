/** What every sequence of pushes keeps, across batches and across stream switches. */
module SchedulingRuns {
  import opened Base
  import opened Rounding
  import opened Signal
  import opened Scheduling
  import opened SchedulingCuts

  ghost predicate AllWellFormed<S>(frames: seq<AudioFrame<S>>) {
    forall k :: 0 <= k < |frames| ==> frames[k].WellFormed()
  }

  /**
   Between pushes: less than one window is retained, it ends where the next batch must start, and
   it belongs to the format the stream began with.
   */
  predicate Whole<Id(==), S>(config: Config, s: Facts<Id, S>) {
    && s.Sound()
    && (!s.IsBlank() ==>
          && s.invalidStream.None?
          && s.expectedNext.Some?
          && CutOf(config, s).Ok?
          && |s.samples| < CutOf(config, s).value.Size()
          && Covers(CutOf(config, s).value, s.bufferStart, s.samples, s.expectedNext.value.frameIndex))
  }

  /** Where the stream's next window starts. */
  function NextWindowStart<Id(==), S>(s: Facts<Id, S>): nat
    requires s.Sound() && s.expectedNext.Some?
  {
    Front(s.bufferStart, s.samples, s.expectedNext.value.frameIndex)
  }

  lemma {:induction false} ContinuousIsContiguous<S>(
    cut: Cut, expected: Option<FrameTimestamp>, frames: seq<AudioFrame<S>>)
    requires frames != [] && AllWellFormed(frames)
    requires CheckContinuity(expected, cut.rate, cut.channels, frames).Ok?
    ensures expected.Some? ==> frames[0].start.frameIndex == expected.value.frameIndex
    ensures Contiguous(cut, frames[0].start.frameIndex, frames)
    ensures var end := CheckContinuity(expected, cut.rate, cut.channels, frames).value;
            end.Some? && end.value.frameIndex == frames[0].start.frameIndex + TotalFrames(frames)
    decreases |frames|
  {
    var end := TimestampAfter(frames[0].start, frames[0].frameCount, cut.rate).value;
    if frames[1..] != [] {
      assert AllWellFormed(frames[1..]) by {
        forall k | 0 <= k < |frames[1..]|
          ensures frames[1..][k].WellFormed()
        {
          assert frames[1..][k] == frames[k + 1];
        }
      }
      ContinuousIsContiguous(cut, Some(end), frames[1..]);
    }
  }

  lemma {:induction false} TotalOfCuts<S>(cut: Cut, windows: seq<AudioFrame<S>>)
    requires AreCuts(cut, windows)
    ensures TotalFrames(windows) == |windows| * cut.window
  {
    if windows != [] {
      assert AreCuts(cut, windows[1..]) by {
        forall k | 0 <= k < |windows[1..]|
          ensures IsCut(cut, windows[1..][k])
        {
          assert windows[1..][k] == windows[k + 1];
        }
      }
      TotalOfCuts(cut, windows[1..]);
      assert |windows| * cut.window == cut.window + |windows[1..]| * cut.window;
    }
  }

  /** Window `k` starts exactly `k` windows after the first one. */
  lemma {:induction false} WindowAt<S>(cut: Cut, windows: seq<AudioFrame<S>>, first: nat, k: nat)
    requires AreCuts(cut, windows) && Follow(windows, first) && k < |windows|
    ensures windows[k].start.frameIndex == first + k * cut.window
  {
    if k > 0 {
      assert AreCuts(cut, windows[1..]) by {
        forall j | 0 <= j < |windows[1..]|
          ensures IsCut(cut, windows[1..][j])
        {
          assert windows[1..][j] == windows[j + 1];
        }
      }
      WindowAt(cut, windows[1..], first + cut.window, k - 1);
      assert (k - 1) * cut.window + cut.window == k * cut.window;
    }
  }

  // ----- one push -----

  /** What a push feeds: the cut it uses, and the frame it starts from. */
  function PushCut<Id(==), S>(config: Config, s: Facts<Id, S>, id: Id, frames: seq<AudioFrame<S>>): Cut
    requires s.Sound() && frames != [] && Admit(config, s, id, frames).Ok?
  {
    Cut(Enter(s, id, frames[0]).timelineOrigin.value, frames[0].sampleRate, frames[0].channels,
        WindowFor(config, frames).value)
  }

  /** A beginning stream needs nothing of what was there before it. */
  ghost predicate Ready<Id, S>(config: Config, s: Facts<Id, S>, id: Id) {
    s.Sound() && (s.Begins(id) || Whole(config, s))
  }

  /** The stream as it is entered covers everything before the batch. */
  lemma EntryCovers<Id, S>(config: Config, s: Facts<Id, S>, id: Id, frames: seq<AudioFrame<S>>)
    requires Ready(config, s, id) && AllWellFormed(frames) && frames != [] && Admit(config, s, id, frames).Ok?
    ensures !s.Begins(id) ==> s.expectedNext.Some?
    ensures var entered, cut := Enter(s, id, frames[0]), PushCut(config, s, id, frames);
            && Covers(cut, entered.bufferStart, entered.samples, frames[0].start.frameIndex)
            && |entered.samples| < cut.Size()
            && (entered.samples != [] ==> entered.bufferStart.Some?)
            && Contiguous(cut, frames[0].start.frameIndex, frames)
            && Admit(config, s, id, frames).value.Some?
            && Admit(config, s, id, frames).value.value.frameIndex
               == frames[0].start.frameIndex + TotalFrames(frames)
            && Front(entered.bufferStart, entered.samples, frames[0].start.frameIndex)
               == (if s.Begins(id) then frames[0].start.frameIndex else NextWindowStart(s))
  {
    var cut := PushCut(config, s, id, frames);
    ContinuousIsContiguous(cut, if s.Switches(id) then None else s.expectedNext, frames);
  }

  lemma FewWindows(held: nat, total: nat, count: nat, window: PositiveU32, limit: nat)
    requires held < window && total <= window * limit && count * window <= held + total
    ensures count <= limit
  {
    assert (count - limit) * window == count * window - limit * window;
    StrictMultiple(count - limit - 1, window);
  }

  lemma HeldIsLessThanWindow<S>(cut: Cut, start: Option<FrameTimestamp>, samples: seq<S>, end: nat)
    requires Covers(cut, start, samples, end) && |samples| < cut.Size() && (samples != [] ==> start.Some?)
    ensures Front(start, samples, end) <= end < Front(start, samples, end) + cut.window
  {
    if samples != [] {
      var held := end - start.value.frameIndex;
      assert (cut.window - held) * ChannelCount(cut.channels)
          == cut.window * ChannelCount(cut.channels) - held * ChannelCount(cut.channels);
      StrictMultiple(held - cut.window, ChannelCount(cut.channels));
    }
  }

  /** Everything one successful push promises. */
  ghost predicate PushKeeps<Id, S>(
    config: Config, s: Facts<Id, S>, id: Id, frames: seq<AudioFrame<S>>, next: Facts<Id, S>,
    result: SchedulingResult<Id, S>)
    requires frames != [] && Admit(config, s, id, frames).Ok? && Ready(config, s, id)
  {
    var carried := if s.Begins(id) then [] else s.samples;
    var first := if s.Begins(id) then frames[0].start.frameIndex else NextWindowStart(s);
    && Whole(config, next) && !next.IsBlank() && next.activeStream == Some(id)
    && CutOf(config, next) == Ok(PushCut(config, s, id, frames))
    && SamplesOf(result.windows) + next.samples == carried + SamplesOf(frames)
    && AreCuts(PushCut(config, s, id, frames), result.windows)
    && Follow(result.windows, first)
    && NextWindowStart(next) == first + TotalFrames(result.windows)
    && |result.windows| <= config.maxWindowsPerPush
    && result.boundary == (if s.Switches(id) then Some(StreamBoundary(s.activeStream.value, id, s.BufferedFrameCount()))
                           else None)
  }

  lemma ContinuingIsNotBlank<Id, S>(config: Config, s: Facts<Id, S>, id: Id, frames: seq<AudioFrame<S>>)
    requires Whole(config, s) && frames != [] && Admit(config, s, id, frames).Ok? && !s.Begins(id)
    ensures !s.IsBlank() && s.expectedNext.Some?
  {
  }

  /** No sample is lost, repeated or reordered, windows stand at their places, and work is bounded. */
  lemma PushConserves<Id, S>(config: Config, s: Facts<Id, S>, id: Id, frames: seq<AudioFrame<S>>)
    requires Ready(config, s, id) && AllWellFormed(frames) && frames != []
    requires Push(config, s, id, frames).result.Ok?
    ensures PushKeeps(config, s, id, frames, Push(config, s, id, frames).facts, Push(config, s, id, frames).result.value)
  {
    var entered, cut := Enter(s, id, frames[0]), PushCut(config, s, id, frames);
    var begin, end := frames[0].start.frameIndex, frames[0].start.frameIndex + TotalFrames(frames);
    if !s.Begins(id) {
      ContinuingIsNotBlank(config, s, id, frames);
    }
    EntryCovers(config, s, id, frames);
    var fed := Feed(cut, entered.bufferStart, entered.samples, frames);
    FeedConserves(cut, entered.bufferStart, entered.samples, frames);
    FeedPositions(cut, entered.bufferStart, entered.samples, frames, begin);
    HeldIsLessThanWindow(cut, entered.bufferStart, entered.samples, begin);
    HeldIsLessThanWindow(cut, fed.start, fed.samples, end);
    TotalOfCuts(cut, fed.windows);
    FewWindows(begin - Front(entered.bufferStart, entered.samples, begin), TotalFrames(frames), |fed.windows|, cut.window,
               config.maxWindowsPerPush);
  }

  // ----- refused pushes -----

  /** A frame that follows `previous` without a gap, within the timestamp tolerance. */
  predicate FollowsOn<S>(previous: FrameTimestamp, frame: AudioFrame<S>) {
    && frame.start.frameIndex == previous.frameIndex
    && AbsDiff(frame.start.streamTimeNs, previous.streamTimeNs) <= TIMESTAMP_TOLERANCE_NS
  }

  ghost predicate IsUninterrupted<S>(
    expected: Option<FrameTimestamp>, rate: PositiveU32, channels: ChannelLayout, frames: seq<AudioFrame<S>>)
  {
    && (forall k :: 0 <= k < |frames| ==>
          && frames[k].sampleRate == rate && frames[k].channels == channels
          && TimestampAfter(frames[k].start, frames[k].frameCount, rate).Ok?)
    && (expected.Some? && frames != [] ==> FollowsOn(expected.value, frames[0]))
    && (forall k :: 1 <= k < |frames| ==>
          FollowsOn(TimestampAfter(frames[k - 1].start, frames[k - 1].frameCount, rate).value, frames[k]))
  }

  lemma {:induction false} ContinuityIff<S>(
    expected: Option<FrameTimestamp>, rate: PositiveU32, channels: ChannelLayout, frames: seq<AudioFrame<S>>)
    ensures CheckContinuity(expected, rate, channels, frames).Ok? <==>
            IsUninterrupted(expected, rate, channels, frames)
    decreases |frames|
  {
    if frames != [] {
      var rest, end := frames[1..], TimestampAfter(frames[0].start, frames[0].frameCount, rate);
      if end.Ok? {
        ContinuityIff(Some(end.value), rate, channels, rest);
        if IsUninterrupted(expected, rate, channels, frames) {
          assert forall k :: 0 <= k < |rest| ==> rest[k] == frames[k + 1];
          assert rest != [] ==> FollowsOn(end.value, frames[1]);
          assert IsUninterrupted(Some(end.value), rate, channels, rest);
        }
        if IsUninterrupted(Some(end.value), rate, channels, rest) {
          forall k | 1 <= k < |frames|
            ensures frames[k] == rest[k - 1]
            ensures frames[k].sampleRate == rate && frames[k].channels == channels
            ensures TimestampAfter(frames[k].start, frames[k].frameCount, rate).Ok?
          {
            assert frames[k] == rest[k - 1];
          }
          forall k | 1 <= k < |frames|
            ensures FollowsOn(TimestampAfter(frames[k - 1].start, frames[k - 1].frameCount, rate).value, frames[k])
          {
            assert frames[k] == rest[k - 1];
            if k > 1 {
              assert frames[k - 1] == rest[k - 2];
            }
          }
        }
      }
    }
  }

  /** Exactly when a batch is admitted. */
  lemma AdmittedIff<Id, S>(config: Config, s: Facts<Id, S>, id: Id, frames: seq<AudioFrame<S>>)
    requires s.Sound() && frames != []
    ensures var rate, channels := frames[0].sampleRate, frames[0].channels;
            Admit(config, s, id, frames).Ok? <==>
            && s.invalidStream != Some(id)
            && WindowFrameCount(config.windowNanos, rate).Ok?
            && (s.activeStream == Some(id) ==> s.sampleRate == Some(rate) && s.channels == Some(channels))
            && TotalFrames(frames) <= WindowFrameCount(config.windowNanos, rate).value * config.maxWindowsPerPush <= U64_MAX
            && IsUninterrupted(if s.Switches(id) then None else s.expectedNext, rate, channels, frames)
  {
    ContinuityIff(if s.Switches(id) then None else s.expectedNext, frames[0].sampleRate, frames[0].channels, frames);
  }

  /**
   A refusal before anything is cut leaves the scheduler as it was, or empties it and spends the
   identity; an oversized batch never changes anything.
   */
  lemma RefusalEffect<Id, S>(config: Config, s: Facts<Id, S>, id: Id, frames: seq<AudioFrame<S>>)
    requires s.Sound() && frames != [] && Admit(config, s, id, frames).Err?
    ensures var pushed := Push(config, s, id, frames);
            && pushed.result.Err?
            && (pushed.facts == s || pushed.facts == Invalidate(id))
            && (pushed.result.error.OversizedInput? || pushed.result.error.StreamIdentityInvalidated? ==>
                  pushed.facts == s)
            && (pushed.result.error.FrameIndexDiscontinuity? ==> pushed.facts == Invalidate(id))
            && (pushed.result.error.TimestampDiscontinuity? ==> pushed.facts == Invalidate(id))
            && (pushed.result.error.FormatChangedWithinStream? ==> pushed.facts == Invalidate(id))
            && (Whole(config, s) ==> Whole(config, pushed.facts))
  {
    CheckErrors(if s.Switches(id) then None else s.expectedNext, frames[0].sampleRate, frames[0].channels, frames);
  }

  lemma {:induction false} CheckErrors<S>(
    expected: Option<FrameTimestamp>, rate: PositiveU32, channels: ChannelLayout, frames: seq<AudioFrame<S>>)
    ensures var checked := CheckContinuity(expected, rate, channels, frames);
            checked.Err? ==> !checked.error.OversizedInput? && !checked.error.StreamIdentityInvalidated?
    decreases |frames|
  {
    if frames != [] {
      var end := TimestampAfter(frames[0].start, frames[0].frameCount, rate);
      if end.Ok? {
        CheckErrors(Some(end.value), rate, channels, frames[1..]);
      }
    }
  }

  datatype Batch<Id, S> = Batch(id: Id, frames: seq<AudioFrame<S>>)

  function FactsAfter<Id(==), S>(config: Config, s: Facts<Id, S>, batches: seq<Batch<Id, S>>): Facts<Id, S>
    requires s.Sound()
    decreases |batches|
  {
    if batches == [] then s
    else
      PushKeepsSound(config, s, batches[0].id, batches[0].frames);
      FactsAfter(config, Push(config, s, batches[0].id, batches[0].frames).facts, batches[1..])
  }

  lemma PushKeepsSound<Id, S>(config: Config, s: Facts<Id, S>, id: Id, frames: seq<AudioFrame<S>>)
    requires s.Sound()
    ensures Push(config, s, id, frames).facts.Sound()
  {
    if frames != [] && Admit(config, s, id, frames).Ok? {
      var entered, cut := Enter(s, id, frames[0]), PushCut(config, s, id, frames);
      FeedKeepsStart(cut, entered.bufferStart, entered.samples, frames);
    }
  }

  lemma {:induction false} FeedKeepsStart<S>(
    cut: Cut, start: Option<FrameTimestamp>, samples: seq<S>, frames: seq<AudioFrame<S>>)
    requires samples != [] ==> start.Some?
    ensures var fed := Feed(cut, start, samples, frames); fed.samples != [] ==> fed.start.Some?
    decreases |frames|
  {
    if frames != [] {
      var entered := if samples == [] then Some(frames[0].start) else start;
      var drained := Drain(cut, entered, samples + frames[0].samples);
      DrainKeepsStart(cut, entered, samples + frames[0].samples);
      if !drained.overflowed {
        FeedKeepsStart(cut, drained.start, drained.samples, frames[1..]);
      }
    }
  }

  /** A spent identity stays refused, whatever is tried with it, until a batch of another identity gets through or is itself spent. */
  lemma {:induction false} SpentIdentityStaysRefused<Id, S>(
    config: Config, id: Id, batches: seq<Batch<Id, S>>, frames: seq<AudioFrame<S>>)
    requires frames != []
    requires forall k :: 0 <= k < |batches| ==>
               batches[k].id == id || batches[k].frames == []
               || (Admit(config, Invalidate<Id, S>(id), batches[k].id, batches[k].frames).Err?
                   && !Admit(config, Invalidate<Id, S>(id), batches[k].id, batches[k].frames).error.invalidates)
    ensures FactsAfter(config, Invalidate(id), batches) == Invalidate(id)
    ensures Push(config, FactsAfter(config, Invalidate(id), batches), id, frames).result == Err(StreamIdentityInvalidated)
    decreases |batches|
  {
    if batches != [] {
      assert batches[0].id == id || batches[0].frames == []
             || (Admit(config, Invalidate<Id, S>(id), batches[0].id, batches[0].frames).Err?
                 && !Admit(config, Invalidate<Id, S>(id), batches[0].id, batches[0].frames).error.invalidates);
      assert forall k :: 0 <= k < |batches[1..]| ==> batches[1..][k] == batches[k + 1];
      SpentIdentityStaysRefused(config, id, batches[1..], frames);
    }
  }

  // ----- runs -----

  /** Any pushes, successful or not. */
  ghost predicate IsPushRun<Id, S>(config: Config, states: seq<Facts<Id, S>>, batches: seq<Batch<Id, S>>) {
    && |states| == |batches| + 1
    && states[0] == InitialFacts()
    && forall i :: 0 <= i < |batches| ==>
         && AllWellFormed(batches[i].frames)
         && states[i].Sound()
         && states[i + 1] == Push(config, states[i], batches[i].id, batches[i].frames).facts
  }

  /**
   What a push does to the current stream: nothing, or end it; run out of timestamps half-way; begin
   the next one; or continue it.
   */
  datatype Effect = Kept | Spent | Torn | Begun | Continued

  function EffectOf<Id(==), S>(config: Config, s: Facts<Id, S>, b: Batch<Id, S>): Effect
    requires s.Sound()
  {
    if b.frames == [] then Kept
    else if Admit(config, s, b.id, b.frames).Err? then
      if Admit(config, s, b.id, b.frames).error.invalidates then Spent else Kept
    else if Push(config, s, b.id, b.frames).result.Err? then Torn
    else if s.Begins(b.id) then Begun
    else Continued
  }

  /** A push of the current stream ran out of timestamps, and the stream has not ended since. */
  ghost predicate IsTorn<Id, S>(config: Config, states: seq<Facts<Id, S>>, batches: seq<Batch<Id, S>>, n: nat)
    requires IsPushRun(config, states, batches) && n <= |batches|
  {
    n > 0 &&
    match EffectOf(config, states[n - 1], batches[n - 1])
    case Torn => true
    case Spent => false
    case Begun => false
    case _ => IsTorn(config, states, batches, n - 1)
  }

  /** All accepted batches of the current stream among the first `n`, in order. */
  ghost function CurrentInput<Id, S>(
    config: Config, states: seq<Facts<Id, S>>, batches: seq<Batch<Id, S>>, n: nat): seq<AudioFrame<S>>
    requires IsPushRun(config, states, batches) && n <= |batches|
  {
    if n == 0 then []
    else
      match EffectOf(config, states[n - 1], batches[n - 1])
      case Spent => []
      case Begun => batches[n - 1].frames
      case Continued => CurrentInput(config, states, batches, n - 1) + batches[n - 1].frames
      case _ => CurrentInput(config, states, batches, n - 1)
  }

  /** The windows a push emits, if it succeeds. */
  function Emitted<Id(==), S>(config: Config, s: Facts<Id, S>, b: Batch<Id, S>): seq<AudioFrame<S>>
    requires s.Sound()
  {
    match Push(config, s, b.id, b.frames).result
    case Ok(result) => result.windows
    case Err(_) => []
  }

  /** All windows of the current stream emitted by the first `n` pushes, in order. */
  ghost function CurrentWindows<Id, S>(
    config: Config, states: seq<Facts<Id, S>>, batches: seq<Batch<Id, S>>, n: nat): seq<AudioFrame<S>>
    requires IsPushRun(config, states, batches) && n <= |batches|
  {
    if n == 0 then []
    else
      match EffectOf(config, states[n - 1], batches[n - 1])
      case Spent => []
      case Begun => Emitted(config, states[n - 1], batches[n - 1])
      case Continued =>
        CurrentWindows(config, states, batches, n - 1) + Emitted(config, states[n - 1], batches[n - 1])
      case _ => CurrentWindows(config, states, batches, n - 1)
  }

  /** The state of a run after `n` pushes, seen from its current stream. */
  ghost predicate Accounts<Id, S>(
    config: Config, s: Facts<Id, S>, input: seq<AudioFrame<S>>, windows: seq<AudioFrame<S>>)
  {
    && Whole(config, s)
    && SamplesOf(windows) + s.samples == SamplesOf(input)
    && (s.IsBlank() ==> input == [] && windows == [])
    && (!s.IsBlank() ==>
          && input != [] && s.timelineOrigin.value == input[0].start
          && AreCuts(CutOf(config, s).value, windows)
          && Follow(windows, s.timelineOrigin.value.frameIndex)
          && NextWindowStart(s) == s.timelineOrigin.value.frameIndex + TotalFrames(windows))
  }

  lemma AccountsBegin<Id, S>(config: Config, s: Facts<Id, S>, id: Id, frames: seq<AudioFrame<S>>)
    requires s.Sound() && AllWellFormed(frames) && frames != [] && s.Begins(id)
    requires Push(config, s, id, frames).result.Ok?
    ensures var pushed := Push(config, s, id, frames);
            Accounts(config, pushed.facts, frames, pushed.result.value.windows)
  {
    PushConserves(config, s, id, frames);
  }

  lemma AccountsContinue<Id, S>(
    config: Config, s: Facts<Id, S>, id: Id, frames: seq<AudioFrame<S>>, input: seq<AudioFrame<S>>,
    windows: seq<AudioFrame<S>>)
    requires Accounts(config, s, input, windows) && AllWellFormed(frames) && frames != [] && !s.Begins(id)
    requires Push(config, s, id, frames).result.Ok?
    ensures var pushed := Push(config, s, id, frames);
            Accounts(config, pushed.facts, input + frames, windows + pushed.result.value.windows)
  {
    var pushed := Push(config, s, id, frames);
    var emitted := pushed.result.value.windows;
    PushConserves(config, s, id, frames);
    ContinuingIsNotBlank(config, s, id, frames);
    SamplesOfAppend(windows, emitted);
    SamplesOfAppend(input, frames);
    Associative(SamplesOf(windows), SamplesOf(emitted), pushed.facts.samples);
    Associative(SamplesOf(windows), s.samples, SamplesOf(frames));
    FollowAppend(windows, emitted, s.timelineOrigin.value.frameIndex);
    AreCutsAppend(CutOf(config, s).value, windows, emitted);
  }

  lemma AccountsOfBlank<Id, S>(config: Config, id: Id)
    ensures Accounts(config, Invalidate<Id, S>(id), [], [])
  {
  }

  /**
   At every point of any run, whatever was refused on the way, the windows emitted for the current
   stream followed by the retained buffer are its accepted input, and its windows follow from its
   origin; unless one of its pushes ran out of timestamps.
   */
  lemma {:induction false} RunConserves<Id, S>(
    config: Config, states: seq<Facts<Id, S>>, batches: seq<Batch<Id, S>>, n: nat)
    requires IsPushRun(config, states, batches) && n <= |batches| && !IsTorn(config, states, batches, n)
    ensures Accounts(config, states[n], CurrentInput(config, states, batches, n),
                     CurrentWindows(config, states, batches, n))
  {
    if n > 0 {
      var s, b := states[n - 1], batches[n - 1];
      match EffectOf(config, s, b)
      case Kept => RunConserves(config, states, batches, n - 1);
      case Spent => AccountsOfBlank<Id, S>(config, b.id);
      case Begun => AccountsBegin(config, s, b.id, b.frames);
      case Continued =>
        RunConserves(config, states, batches, n - 1);
        AccountsContinue(config, s, b.id, b.frames, CurrentInput(config, states, batches, n - 1),
                         CurrentWindows(config, states, batches, n - 1));
    }
  }

  /** A switch reports the two identities and exactly the whole frames of the old stream that no window carried. */
  lemma BoundaryReportsWhatIsDropped<Id, S>(
    config: Config, states: seq<Facts<Id, S>>, batches: seq<Batch<Id, S>>, n: nat)
    requires IsPushRun(config, states, batches) && n < |batches| && !IsTorn(config, states, batches, n)
    requires states[n].Sound() && EffectOf(config, states[n], batches[n]) in {Begun, Continued}
    ensures var boundary := Push(config, states[n], batches[n].id, batches[n].frames).result.value.boundary;
            && (boundary.Some? <==> states[n].Switches(batches[n].id))
            && (boundary.Some? ==>
                  && Some(boundary.value.previous) == states[n].activeStream
                  && boundary.value.current == batches[n].id
                  && (states[n].IsBlank() ==> boundary.value.discardedPartialFrames == 0)
                  && (!states[n].IsBlank() ==>
                        boundary.value.discardedPartialFrames * ChannelCount(states[n].channels.value)
                        == |SamplesOf(CurrentInput(config, states, batches, n))|
                           - |SamplesOf(CurrentWindows(config, states, batches, n))|))
  {
    RunConserves(config, states, batches, n);
    PushConserves(config, states[n], batches[n].id, batches[n].frames);
    RetainedIsTheRest(config, states[n], CurrentInput(config, states, batches, n),
                      CurrentWindows(config, states, batches, n));
  }

  lemma RetainedIsTheRest<Id, S>(
    config: Config, s: Facts<Id, S>, input: seq<AudioFrame<S>>, windows: seq<AudioFrame<S>>)
    requires Accounts(config, s, input, windows)
    ensures s.IsBlank() ==> s.BufferedFrameCount() == 0
    ensures !s.IsBlank() ==>
              s.BufferedFrameCount() * ChannelCount(s.channels.value) == |SamplesOf(input)| - |SamplesOf(windows)|
  {
    assert |SamplesOf(windows) + s.samples| == |SamplesOf(input)|;
    if s.samples != [] {
      FramesInverse(s.expectedNext.value.frameIndex - s.bufferStart.value.frameIndex, ChannelCount(s.channels.value));
    }
  }

  /**
   However the same frames are batched, the windows are the same: as many, with the same samples,
   at the same frame indexes, in the same format; and the same samples stay buffered.
   */
  lemma BatchingDoesNotMatter<Id, S>(
    config: Config,
    states: seq<Facts<Id, S>>, batches: seq<Batch<Id, S>>, n: nat,
    states': seq<Facts<Id, S>>, batches': seq<Batch<Id, S>>, n': nat)
    requires IsPushRun(config, states, batches) && n <= |batches| && !IsTorn(config, states, batches, n)
    requires IsPushRun(config, states', batches') && n' <= |batches'| && !IsTorn(config, states', batches', n')
    requires !states[n].IsBlank() && !states'[n'].IsBlank()
    requires SamplesOf(CurrentInput(config, states, batches, n)) == SamplesOf(CurrentInput(config, states', batches', n'))
    requires states[n].timelineOrigin == states'[n'].timelineOrigin
    requires states[n].sampleRate == states'[n'].sampleRate && states[n].channels == states'[n'].channels
    ensures var windows, windows' := CurrentWindows(config, states, batches, n), CurrentWindows(config, states', batches', n');
            && |windows| == |windows'|
            && states[n].samples == states'[n'].samples
            && forall k :: 0 <= k < |windows| ==> SameBesidesTime(windows[k], windows'[k])
  {
    RunConserves(config, states, batches, n);
    RunConserves(config, states', batches', n');
    AccountsAgree(config, states[n], CurrentInput(config, states, batches, n), CurrentWindows(config, states, batches, n),
                  states'[n'], CurrentInput(config, states', batches', n'), CurrentWindows(config, states', batches', n'));
  }

  predicate SameBesidesTime<S(==)>(a: AudioFrame<S>, b: AudioFrame<S>) {
    && a.start.frameIndex == b.start.frameIndex && a.frameCount == b.frameCount
    && a.sampleRate == b.sampleRate && a.channels == b.channels && a.samples == b.samples
  }

  lemma AccountsAgree<Id, S>(
    config: Config, s: Facts<Id, S>, input: seq<AudioFrame<S>>, windows: seq<AudioFrame<S>>,
    s': Facts<Id, S>, input': seq<AudioFrame<S>>, windows': seq<AudioFrame<S>>)
    requires Accounts(config, s, input, windows) && !s.IsBlank()
    requires Accounts(config, s', input', windows') && !s'.IsBlank()
    requires SamplesOf(input) == SamplesOf(input')
    requires s.timelineOrigin == s'.timelineOrigin && s.sampleRate == s'.sampleRate && s.channels == s'.channels
    ensures |windows| == |windows'| && s.samples == s'.samples
    ensures forall k :: 0 <= k < |windows| ==> SameBesidesTime(windows[k], windows'[k])
  {
    var cut := CutOf(config, s).value;
    CutsHaveOneSize(cut, windows);
    CutsHaveOneSize(cut, windows');
    CuttingIsUnique(windows, s.samples, windows', s'.samples, cut.Size());
    forall k | 0 <= k < |windows|
      ensures SameBesidesTime(windows[k], windows'[k])
    {
      WindowAt(cut, windows, cut.origin.frameIndex, k);
      WindowAt(cut, windows', cut.origin.frameIndex, k);
      assert IsCut(cut, windows[k]) && IsCut(cut, windows'[k]);
    }
  }
}
