/** Exactly which packet sequences go through the whole pipeline. */
module PipelineRuns {
  import opened Base
  import opened Capture
  import opened CaptureRuns
  import opened EndToEnd
  import opened Pipeline
  import opened Protocol
  import opened Rounding
  import opened Signal
  import opened Scheduling
  import opened SchedulingCuts
  import opened SchedulingLimits
  import opened SchedulingRuns
  import opened SchedulingTime

  // ----- the end of the timeline -----

  /** A window begins strictly inside these frames, where the `u64` product of its index is out of range. */
  predicate IsLate(window: PositiveU32, begin: nat, end: nat, m: nat) {
    begin < m < end && m % window == 0 && m * NANOS_PER_SECOND > U64_MAX
  }

  predicate EndsInTime(rate: PositiveU32, begin: nat, more: nat) {
    NanosOf(begin, rate) + NanosOf(more, rate) <= U64_MAX
  }

  ghost predicate CutsLate(window: PositiveU32, begin: nat, end: nat) {
    exists m: nat :: IsLate(window, begin, end, m)
  }

  /** The end of the frames can be stamped, and so can every window that begins inside them. */
  ghost predicate FitsTimeline(rate: PositiveU32, window: PositiveU32, begin: nat, more: nat) {
    EndsInTime(rate, begin, more) && !CutsLate(window, begin, begin + more)
  }

  lemma TearsIffLate(cut: Cut, begin: nat, end: nat)
    requires cut.origin == FrameTimestamp(0, 0)
    ensures Tears(cut, 0, begin, end) <==> CutsLate(cut.window, begin, end)
  {
    forall m: nat
      ensures TearsAt(cut, 0, begin, end, m) <==> IsLate(cut.window, begin, end, m)
    {
      UnstampableFromZero(cut, m);
    }
    if Tears(cut, 0, begin, end) {
      var m: nat :| TearsAt(cut, 0, begin, end, m);
      assert IsLate(cut.window, begin, end, m);
    }
    if CutsLate(cut.window, begin, end) {
      var m: nat :| IsLate(cut.window, begin, end, m);
      assert TearsAt(cut, 0, begin, end, m);
    }
  }

  lemma OneFrameTears<S>(cut: Cut, front: nat, frame: AudioFrame<S>)
    ensures TearsAny(cut, front, [frame]) <==>
            Tears(cut, front, frame.start.frameIndex, frame.start.frameIndex + frame.frameCount)
  {
    assert [frame][0] == frame;
    assert TearsFrame(cut, front, [frame], 0) <==>
           Tears(cut, front, frame.start.frameIndex, frame.start.frameIndex + frame.frameCount);
  }

  // ----- one frame -----

  predicate MessageFits(cut: Cut) {
    BINARY_HEADER_LEN + 4 * cut.Size() <= MAX_BINARY_FRAME_BYTES
  }

  lemma CutEncodesIff(sequence: u64, cut: Cut, w: AudioFrame<Bits32>)
    requires IsCut(cut, w) && ChannelCount(cut.channels) <= 2
    ensures EncodeWaveformFrame(sequence, w).Ok? <==> MessageFits(cut)
  {
  }

  lemma {:induction false} CutsEncodeIff(sequence: u64, cut: Cut, windows: seq<AudioFrame<Bits32>>)
    requires AreCuts(cut, windows) && ChannelCount(cut.channels) <= 2 && sequence + |windows| <= U64_MAX
    ensures EncodeWindows(sequence, windows).result.Ok? <==> windows == [] || MessageFits(cut)
    decreases |windows|
  {
    if windows != [] {
      assert IsCut(cut, windows[0]);
      CutEncodesIff(sequence, cut, windows[0]);
      assert AreCuts(cut, windows[1..]) by {
        forall k | 0 <= k < |windows[1..]|
          ensures IsCut(cut, windows[1..][k])
        {
          assert windows[1..][k] == windows[k + 1];
        }
      }
      CutsEncodeIff(sequence + 1, cut, windows[1..]);
    }
  }

  /** The frame goes on where the stream stands. */
  ghost predicate GoesOn(s: Scheduled, frame: AudioFrame<Bits32>, cut: Cut) {
    && s.Sound() && s.invalidStream.None?
    && frame.start.frameIndex + frame.frameCount <= U64_MAX
    && (!s.IsBlank() ==>
          && s.expectedNext.Some? && s.expectedNext.value.frameIndex == frame.start.frameIndex
          && NearlyExact(cut.rate, s.expectedNext.value))
  }

  lemma EndIffInTime(frame: AudioFrame<Bits32>, rate: PositiveU32)
    requires Exact(rate, frame.start) && frame.start.frameIndex + frame.frameCount <= U64_MAX
    ensures TimestampAfter(frame.start, frame.frameCount, rate).Ok? <==>
            EndsInTime(rate, frame.start.frameIndex, frame.frameCount)
  {
  }

  lemma ContinuousIffInTime(s: Scheduled, id: StreamId, frame: AudioFrame<Bits32>, cut: Cut)
    requires FitsStream(s, id, frame, cut) && GoesOn(s, frame, cut)
    ensures IsUninterrupted(s.expectedNext, cut.rate, cut.channels, [frame]) <==>
            EndsInTime(cut.rate, frame.start.frameIndex, frame.frameCount)
  {
    EndIffInTime(frame, cut.rate);
    if !s.IsBlank() {
      assert FollowsOn(s.expectedNext.value, frame);
    }
  }

  lemma AdmittedIffSmall(s: Scheduled, id: StreamId, frame: AudioFrame<Bits32>, cut: Cut)
    requires FitsStream(s, id, frame, cut) && GoesOn(s, frame, cut)
    ensures Admit(DEFAULT_CONFIG, s, id, [frame]).Ok? <==>
            && frame.frameCount <= DEFAULT_MAX_WINDOWS * cut.window
            && EndsInTime(cut.rate, frame.start.frameIndex, frame.frameCount)
  {
    OneFrame(frame);
    ContinuousIffInTime(s, id, frame, cut);
    AdmittedIff(DEFAULT_CONFIG, s, id, [frame]);
  }

  /** Where the stream's next window starts, in whole windows from its zero. */
  lemma FrontIsWhole(
    id: StreamId, s: Scheduled, frame: AudioFrame<Bits32>, cut: Cut,
    frames: seq<AudioFrame<Bits32>>, windows: seq<AudioFrame<Bits32>>)
    requires Accounts(DEFAULT_CONFIG, s, frames, windows)
    requires FitsStream(s, id, frame, cut) && GoesOn(s, frame, cut)
    ensures var front := if s.Begins(id) then frame.start.frameIndex else NextWindowStart(s);
            front == |windows| * cut.window <= frame.start.frameIndex
  {
    if !s.IsBlank() {
      TotalOfCuts(cut, windows);
      HeldIsLessThanWindow(cut, s.bufferStart, s.samples, s.expectedNext.value.frameIndex);
    }
  }

  lemma PushedIff(
    id: StreamId, s: Scheduled, frame: AudioFrame<Bits32>, cut: Cut,
    frames: seq<AudioFrame<Bits32>>, windows: seq<AudioFrame<Bits32>>)
    requires Accounts(DEFAULT_CONFIG, s, frames, windows)
    requires FitsStream(s, id, frame, cut) && GoesOn(s, frame, cut)
    ensures Push(DEFAULT_CONFIG, s, id, [frame]).result.Ok? <==>
            && frame.frameCount <= DEFAULT_MAX_WINDOWS * cut.window
            && FitsTimeline(cut.rate, cut.window, frame.start.frameIndex, frame.frameCount)
  {
    AdmittedIffSmall(s, id, frame, cut);
    if Admit(DEFAULT_CONFIG, s, id, [frame]).Ok? {
      FrontIsWhole(id, s, frame, cut, frames, windows);
      PushCutIs(id, s, frame, cut);
      PushRunsOutIff(DEFAULT_CONFIG, s, id, [frame]);
      OneFrameTears(cut, |windows| * cut.window, frame);
      SameTears(cut, 0, |windows|, frame.start.frameIndex, frame.start.frameIndex + frame.frameCount);
      TearsIffLate(cut, frame.start.frameIndex, frame.start.frameIndex + frame.frameCount);
    }
  }

  lemma FewerThanFrames(frames: nat, window: PositiveU32)
    ensures frames / window <= frames
  {
    QuotientShrinks(frames, window);
  }

  /** A push completes as many windows as window lengths end within its frame. */
  lemma EmittedCount(
    id: StreamId, s: Scheduled, frame: AudioFrame<Bits32>, cut: Cut,
    frames: seq<AudioFrame<Bits32>>, windows: seq<AudioFrame<Bits32>>)
    requires Accounts(DEFAULT_CONFIG, s, frames, windows) && FitsStream(s, id, frame, cut)
    requires Push(DEFAULT_CONFIG, s, id, [frame]).result.Ok?
    ensures var emitted := Push(DEFAULT_CONFIG, s, id, [frame]).result.value.windows;
            && AreCuts(cut, emitted)
            && |windows| + |emitted| == (frame.start.frameIndex + frame.frameCount) / cut.window
  {
    var pushed := Push(DEFAULT_CONFIG, s, id, [frame]);
    PushKeepsAccounts(id, s, frame, frames, windows);
    PushMovesOn(id, s, frame, cut);
    CountOfWindows(pushed.facts, cut, frames + [frame], windows + pushed.result.value.windows,
                   frame.start.frameIndex + frame.frameCount);
    PartsAreCuts(cut, windows, pushed.result.value.windows);
  }

  lemma PartsAreCuts(cut: Cut, a: seq<AudioFrame<Bits32>>, b: seq<AudioFrame<Bits32>>)
    requires AreCuts(cut, a + b)
    ensures AreCuts(cut, b)
  {
    forall k | 0 <= k < |b|
      ensures IsCut(cut, b[k])
    {
      assert (a + b)[|a| + k] == b[k];
    }
  }

  lemma WindowsSoFar(format: CaptureFormat, id: StreamId, packets: seq<CapturePacket>, t: Stream)
    requires AllValid(packets) && Inv(format, id, packets, t)
    ensures |t.windows| == AllFrames(packets) / Window(format).value
  {
    if t.session.scheduler.IsBlank() {
      QuotientIs(0, Window(format).value, 0, 0);
    } else {
      CountOfWindows(t.session.scheduler, CutFor(format), t.frames, t.windows, AllFrames(packets));
    }
  }

  /** Whether the scheduler and the encoder take the frame that comes next. */
  lemma TakenIff(
    id: StreamId, session: SessionFacts, frame: AudioFrame<Bits32>, cut: Cut,
    frames: seq<AudioFrame<Bits32>>, windows: seq<AudioFrame<Bits32>>)
    requires Accounts(DEFAULT_CONFIG, session.scheduler, frames, windows)
    requires FitsStream(session.scheduler, id, frame, cut) && GoesOn(session.scheduler, frame, cut)
    requires ChannelCount(cut.channels) <= 2
    requires session.sequence == |windows| == frame.start.frameIndex / cut.window
    ensures Encode(session, EventWaveform(id, frame)).result.Ok? <==>
            && frame.frameCount <= DEFAULT_MAX_WINDOWS * cut.window
            && FitsTimeline(cut.rate, cut.window, frame.start.frameIndex, frame.frameCount)
            && ((frame.start.frameIndex + frame.frameCount) / cut.window == frame.start.frameIndex / cut.window
                || MessageFits(cut))
  {
    PushedIff(id, session.scheduler, frame, cut, frames, windows);
    var pushed := Push(DEFAULT_CONFIG, session.scheduler, id, [frame]);
    if pushed.result.Ok? {
      EmittedCount(id, session.scheduler, frame, cut, frames, windows);
      FewerThanFrames(frame.start.frameIndex + frame.frameCount, cut.window);
      CutsEncodeIff(session.sequence, cut, pushed.result.value.windows);
    }
  }

  lemma ProcessedParts(format: CaptureFormat, id: StreamId, t: Stream, packet: CapturePacket)
    requires packet.Valid() && t.session.scheduler.Sound()
    ensures var built := PushPacket(format, t.builder, packet).result;
            Process(format, id, t, packet).Ok? <==>
            built.Ok? && Encode(t.session, EventWaveform(id, built.value.frame)).result.Ok?
    ensures Process(format, id, t, packet).Ok? ==>
            Process(format, id, t, packet).value.builder == PushPacket(format, t.builder, packet).facts
  {
  }

  lemma InvGoesOn(
    format: CaptureFormat, id: StreamId, packets: seq<CapturePacket>, t: Stream, frame: AudioFrame<Bits32>)
    requires AllValid(packets) && Inv(format, id, packets, t)
    requires frame.WellFormed() && frame.sampleRate == format.sampleRate && frame.channels == format.Channels()
    requires frame.start.frameIndex == AllFrames(packets) && Exact(format.sampleRate, frame.start)
    requires t.session.scheduler.IsBlank() ==> frame.start == FrameTimestamp(0, 0)
    requires AllFrames(packets) + frame.frameCount <= U64_MAX
    ensures FitsStream(t.session.scheduler, id, frame, CutFor(format))
    ensures GoesOn(t.session.scheduler, frame, CutFor(format))
    ensures Accounts(DEFAULT_CONFIG, t.session.scheduler, t.frames, t.windows) && t.session.sequence == |t.windows|
  {
  }

  lemma FitsIff(format: CaptureFormat)
    requires Window(format).Ok?
    ensures MessageFits(CutFor(format)) <==> RoomForOne(format, Window(format).value)
  {
    BytesOfWindows(1, Window(format).value, ChannelCount(format.Channels()));
  }

  lemma NextFrameTakenIff(
    format: CaptureFormat, id: StreamId, packets: seq<CapturePacket>, t: Stream, frame: AudioFrame<Bits32>)
    requires AllValid(packets) && Inv(format, id, packets, t)
    requires frame.WellFormed() && frame.sampleRate == format.sampleRate && frame.channels == format.Channels()
    requires frame.start.frameIndex == AllFrames(packets) && Exact(format.sampleRate, frame.start)
    requires t.session.scheduler.IsBlank() ==> frame.start == FrameTimestamp(0, 0)
    requires AllFrames(packets) + frame.frameCount <= U64_MAX
    ensures Encode(t.session, EventWaveform(id, frame)).result.Ok? <==>
            TakesMore(format, Window(format).value, AllFrames(packets), frame.frameCount)
  {
    InvGoesOn(format, id, packets, t, frame);
    WindowsSoFar(format, id, packets, t);
    FitsIff(format);
    TakenIff(id, t.session, frame, CutFor(format), t.frames, t.windows);
  }

  /** At most eight windows at once, all of them in time, and a message has room for a window if one is completed. */
  ghost predicate TakesMore(format: CaptureFormat, window: PositiveU32, before: nat, more: nat) {
    && more <= DEFAULT_MAX_WINDOWS * window
    && FitsTimeline(format.sampleRate, window, before, more)
    && ((before + more) / window == before / window || RoomForOne(format, window))
  }

  predicate RoomForOne(format: CaptureFormat, window: PositiveU32) {
    BINARY_HEADER_LEN + window * format.BytesPerFrame() <= MAX_BINARY_FRAME_BYTES
  }

  /** Given what came before, exactly when one more packet goes through. */
  lemma ProcessedIff(format: CaptureFormat, id: StreamId, packets: seq<CapturePacket>, t: Stream, packet: CapturePacket)
    requires AllValid(packets) && packet.Valid() && Inv(format, id, packets, t)
    ensures Process(format, id, t, packet).Ok? <==>
            && PushPacket(format, t.builder, packet).result.Ok?
            && TakesMore(format, Window(format).value, AllFrames(packets), packet.frameCount)
  {
    ProcessedParts(format, id, t, packet);
    if PushPacket(format, t.builder, packet).result.Ok? {
      BuiltFrameContinues(format, id, packets, t, packet);
      NextFrameTakenIff(format, id, packets, t, PushPacket(format, t.builder, packet).result.value.frame);
    }
  }

  predicate AllSmall(packets: seq<CapturePacket>, window: PositiveU32) {
    forall k :: 0 <= k < |packets| ==> packets[k].frameCount <= DEFAULT_MAX_WINDOWS * window
  }

  ghost predicate AllFit(format: CaptureFormat, window: PositiveU32, packets: seq<CapturePacket>) {
    forall k :: 0 <= k < |packets| ==>
      FitsTimeline(format.sampleRate, window, AllFrames(packets[..k]), packets[k].frameCount)
  }

  /** No packet is longer than eight windows, none is late, and a message has room if one window is completed. */
  ghost predicate Bounded(format: CaptureFormat, window: PositiveU32, packets: seq<CapturePacket>) {
    AllSmall(packets, window) && AllFit(format, window, packets) && HasRoom(format, window, AllFrames(packets))
  }

  /** No window is complete yet, or a message has room for one. */
  predicate HasRoom(format: CaptureFormat, window: PositiveU32, total: nat) {
    total / window == 0 || RoomForOne(format, window)
  }

  lemma HasRoomStep(format: CaptureFormat, window: PositiveU32, before: nat, more: nat)
    ensures HasRoom(format, window, before + more) <==>
            && HasRoom(format, window, before)
            && ((before + more) / window == before / window || RoomForOne(format, window))
  {
    QuotientStep(before, more, window, RoomForOne(format, window));
  }

  lemma QuotientStep(before: nat, more: nat, window: PositiveU32, room: bool)
    ensures ((before + more) / window == 0 || room) <==>
            && (before / window == 0 || room)
            && ((before + more) / window == before / window || room)
  {
    QuotientGrows(before, more, window);
  }

  lemma AllSmallStep(packets: seq<CapturePacket>, last: CapturePacket, window: PositiveU32)
    ensures AllSmall(packets + [last], window) <==>
            AllSmall(packets, window) && last.frameCount <= DEFAULT_MAX_WINDOWS * window
  {
    var all := packets + [last];
    assert all[|packets|] == last;
    assert forall k :: 0 <= k < |packets| ==> all[k] == packets[k];
  }

  lemma {:induction false} AllFitStep(
    format: CaptureFormat, window: PositiveU32, packets: seq<CapturePacket>, last: CapturePacket)
    ensures AllFit(format, window, packets + [last]) <==>
            && AllFit(format, window, packets)
            && FitsTimeline(format.sampleRate, window, AllFrames(packets), last.frameCount)
  {
    var all := packets + [last];
    assert all[..|packets|] == packets && all[|packets|] == last;
    forall k | 0 <= k < |packets|
      ensures all[..k] == packets[..k] && all[k] == packets[k]
    {
    }
  }

  lemma BuilderStep(format: CaptureFormat, packets: seq<CapturePacket>, last: CapturePacket)
    requires AllValid(packets) && last.Valid()
    ensures AllValid(packets + [last])
    ensures BuilderAfter(format, packets + [last]).Ok? <==>
            && BuilderAfter(format, packets).Ok?
            && PushPacket(format, BuilderAfter(format, packets).value, last).result.Ok?
    ensures BuilderAfter(format, packets + [last]).Ok? ==>
            BuilderAfter(format, packets + [last]).value
            == PushPacket(format, BuilderAfter(format, packets).value, last).facts
  {
    assert (packets + [last])[..|packets|] == packets && (packets + [last])[|packets|] == last;
  }

  lemma QuotientGrows(a: nat, b: nat, window: PositiveU32)
    ensures a / window <= (a + b) / window
  {
    DivisionOfSum(a, b, window);
  }

  lemma {:induction false} BoundedStep(format: CaptureFormat, window: PositiveU32, packets: seq<CapturePacket>, last: CapturePacket)
    requires AllValid(packets) && last.Valid()
    ensures Bounded(format, window, packets + [last]) <==>
            Bounded(format, window, packets) && TakesMore(format, window, AllFrames(packets), last.frameCount)
  {
    var total := AllFrames(packets);
    MorePackets(packets, last);
    AllSmallStep(packets, last, window);
    AllFitStep(format, window, packets, last);
    HasRoomStep(format, window, total, last.frameCount);
  }

  lemma RunStep(format: CaptureFormat, id: StreamId, packets: seq<CapturePacket>, last: CapturePacket)
    requires AllValid(packets) && last.Valid() && Window(format).Ok?
    requires Run(format, id, packets).Ok?
    requires BuilderAfter(format, packets) == Ok(Run(format, id, packets).value.builder)
    ensures AllValid(packets + [last])
    ensures Run(format, id, packets + [last]).Ok? <==>
            && PushPacket(format, BuilderAfter(format, packets).value, last).result.Ok?
            && TakesMore(format, Window(format).value, AllFrames(packets), last.frameCount)
    ensures Run(format, id, packets + [last]).Ok? ==>
            BuilderAfter(format, packets + [last]) == Ok(Run(format, id, packets + [last]).value.builder)
  {
    assert (packets + [last])[..|packets|] == packets && (packets + [last])[|packets|] == last;
    BuilderStep(format, packets, last);
    RunKeepsInv(format, id, packets);
    ProcessedIff(format, id, packets, Run(format, id, packets).value, last);
    ProcessedParts(format, id, Run(format, id, packets).value, last);
  }

  /**
   A run goes through exactly when the packets are one uninterrupted capture, none is longer than
   eight windows, every one ends and is cut within the timeline, and one window fits a message if
   any is completed at all.
   */
  lemma {:induction false} RunsIff(format: CaptureFormat, id: StreamId, packets: seq<CapturePacket>)
    requires AllValid(packets) && Window(format).Ok?
    ensures Run(format, id, packets).Ok? <==>
            IsCapture(format, packets) && Bounded(format, Window(format).value, packets)
    ensures Run(format, id, packets).Ok? ==> BuilderAfter(format, packets) == Ok(Run(format, id, packets).value.builder)
    decreases |packets|
  {
    BuildsIff(format, packets);
    if packets == [] {
      QuotientIs(0, Window(format).value, 0, 0);
    } else {
      var before, last := packets[..|packets| - 1], packets[|packets| - 1];
      assert packets == before + [last];
      RunsIff(format, id, before);
      BuildsIff(format, before);
      BoundedStep(format, Window(format).value, before, last);
      BuilderStep(format, before, last);
      if Run(format, id, before).Ok? {
        RunStep(format, id, before, last);
      }
    }
  }
}
