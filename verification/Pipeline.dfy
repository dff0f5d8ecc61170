/** Captured bytes in, the same bytes out: re-chunked into windows and exactly timed. */
module Pipeline {
  import opened Base
  import opened Capture
  import opened CaptureRuns
  import opened Protocol
  import opened Rounding
  import opened SampleBytes
  import opened Signal
  import opened Scheduling
  import opened SchedulingCuts
  import opened SchedulingRuns
  import opened SchedulingTime

  datatype PipelineError = NotCaptured(capture: CaptureError) | NotEncoded(encode: EncodeError)

  /** One capture feeding one session, with everything that passed so far. */
  datatype Stream = Stream(
    builder: BuilderFacts,
    session: SessionFacts,
    frames: seq<AudioFrame<Bits32>>,
    windows: seq<AudioFrame<Bits32>>,
    messages: seq<EncodedEvent>)

  const INITIAL_STREAM := Stream(INITIAL_BUILDER, SessionFacts(InitialFacts(), 0), [], [], [])

  /** A packet is built into a frame, scheduled under the stream's identity, and its windows encoded. */
  function Process(format: CaptureFormat, id: StreamId, t: Stream, packet: CapturePacket):
    (r: Result<Stream, PipelineError>)
    requires packet.Valid() && t.session.scheduler.Sound()
    ensures r.Ok? ==> r.value.session.scheduler.Sound()
  {
    match PushPacket(format, t.builder, packet).result
    case Err(error) => Err(NotCaptured(error))
    case Ok(built) =>
      PushKeepsSound(DEFAULT_CONFIG, t.session.scheduler, id, [built.frame]);
      var encoded := Encode(t.session, EventWaveform(id, built.frame));
      match encoded.result
      case Err(error) => Err(NotEncoded(error))
      case Ok(messages) =>
        var windows := Push(DEFAULT_CONFIG, t.session.scheduler, id, [built.frame]).result.value.windows;
        Ok(Stream(PushPacket(format, t.builder, packet).facts, encoded.facts, t.frames + [built.frame],
                  t.windows + windows, t.messages + messages))
  }

  function Window(format: CaptureFormat): Result<PositiveU32, SchedulingError> {
    WindowFrameCount(DEFAULT_CONFIG.windowNanos, format.sampleRate)
  }

  function CutFor(format: CaptureFormat): Cut
    requires Window(format).Ok?
  {
    Cut(FrameTimestamp(0, 0), format.sampleRate, format.Channels(), Window(format).value)
  }

  function AllBytes(packets: seq<CapturePacket>): seq<u8>
    requires AllValid(packets)
  {
    if packets == [] then [] else AllBytes(packets[..|packets| - 1]) + CapturedBytes(packets[|packets| - 1])
  }

  predicate Carries(message: EncodedEvent, sequence: nat, window: AudioFrame<Bits32>) {
    && sequence <= U64_MAX
    && EncodeWaveformFrame(sequence, window).Ok?
    && message == Binary(EncodeWaveformFrame(sequence, window).value)
  }

  /** Message `k` carries window `k` under sequence number `first + k`. */
  predicate MessagesCarry(messages: seq<EncodedEvent>, windows: seq<AudioFrame<Bits32>>, first: nat) {
    && |messages| == |windows|
    && forall k :: 0 <= k < |windows| ==> Carries(messages[k], first + k, windows[k])
  }

  lemma {:induction false} EncodedWindowsCarry(sequence: u64, windows: seq<AudioFrame<Bits32>>)
    requires EncodeWindows(sequence, windows).result.Ok?
    ensures MessagesCarry(EncodeWindows(sequence, windows).result.value, windows, sequence)
    ensures EncodeWindows(sequence, windows).sequence == sequence + |windows|
    decreases |windows|
  {
    if windows != [] {
      EncodedWindowsCarry(sequence + 1, windows[1..]);
      var later := EncodeWindows(sequence + 1, windows[1..]).result.value;
      var first := Binary(EncodeWaveformFrame(sequence, windows[0]).value);
      assert EncodeWindows(sequence, windows).result.value == [first] + later;
      CarryCons(first, later, windows, sequence);
    }
  }

  lemma CarryCons(first: EncodedEvent, later: seq<EncodedEvent>, windows: seq<AudioFrame<Bits32>>, sequence: nat)
    requires windows != [] && Carries(first, sequence, windows[0]) && MessagesCarry(later, windows[1..], sequence + 1)
    ensures MessagesCarry([first] + later, windows, sequence)
  {
    var messages := [first] + later;
    forall k | 0 <= k < |windows|
      ensures Carries(messages[k], sequence + k, windows[k])
    {
      if k > 0 {
        assert windows[k] == windows[1..][k - 1] && messages[k] == later[k - 1];
        assert Carries(later[k - 1], (sequence + 1) + (k - 1), windows[1..][k - 1]);
      }
    }
  }

  lemma CarryAppend(
    m1: seq<EncodedEvent>, w1: seq<AudioFrame<Bits32>>, m2: seq<EncodedEvent>, w2: seq<AudioFrame<Bits32>>)
    requires MessagesCarry(m1, w1, 0) && MessagesCarry(m2, w2, |w1|)
    ensures MessagesCarry(m1 + m2, w1 + w2, 0)
  {
    var m, w := m1 + m2, w1 + w2;
    forall k | 0 <= k < |w|
      ensures Carries(m[k], 0 + k, w[k])
    {
      if k < |w1| {
        assert w[k] == w1[k] && m[k] == m1[k];
        assert Carries(m1[k], 0 + k, w1[k]);
      } else {
        assert w[k] == w2[k - |w1|] && m[k] == m2[k - |w1|];
        assert Carries(m2[k - |w1|], |w1| + (k - |w1|), w2[k - |w1|]);
      }
    }
  }

  /** The state of a stream after the packets it processed. */
  ghost predicate Inv(format: CaptureFormat, id: StreamId, packets: seq<CapturePacket>, t: Stream)
    requires AllValid(packets)
  {
    && Window(format).Ok?
    && Accounts(DEFAULT_CONFIG, t.session.scheduler, t.frames, t.windows)
    && BufferIsExact(t.session.scheduler)
    && t.session.sequence == |t.windows|
    && MessagesCarry(t.messages, t.windows, 0)
    && AllExact(format.sampleRate, t.windows)
    && t.builder.nextFrameIndex == AllFrames(packets)
    && ToBytes(SamplesOf(t.frames)) == AllBytes(packets)
    && t.session.scheduler.invalidStream.None?
    && Belongs(t.session.scheduler, id)
    && (if t.session.scheduler.IsBlank() then packets == []
        else
          && CutIs(t.session.scheduler, CutFor(format))
          && t.session.scheduler.expectedNext.value.frameIndex == AllFrames(packets)
          && NearlyExact(format.sampleRate, t.session.scheduler.expectedNext.value))
  }

  lemma InitialInv(format: CaptureFormat, id: StreamId)
    requires Window(format).Ok?
    ensures Inv(format, id, [], INITIAL_STREAM)
  {
  }

  /** All packets, in order. */
  function Run(format: CaptureFormat, id: StreamId, packets: seq<CapturePacket>): (r: Result<Stream, PipelineError>)
    requires AllValid(packets)
    ensures r.Ok? ==> r.value.session.scheduler.Sound()
  {
    if packets == [] then Ok(INITIAL_STREAM)
    else
      var before :- Run(format, id, packets[..|packets| - 1]);
      Process(format, id, before, packets[|packets| - 1])
  }

  // ----- one packet -----

  lemma EndOfExactIsNearlyExact(rate: PositiveU32, start: FrameTimestamp, frames: nat)
    requires Exact(rate, start) && TimestampAfter(start, frames, rate).Ok?
    ensures NearlyExact(rate, TimestampAfter(start, frames, rate).value)
  {
    RoundingLosesAtMostOne(start.frameIndex, frames, rate);
  }

  lemma OneFrame(frame: AudioFrame<Bits32>)
    ensures SamplesOf([frame]) == frame.samples && TotalFrames([frame]) == frame.frameCount
    ensures AllExact(frame.sampleRate, [frame]) <==> Exact(frame.sampleRate, frame.start)
  {
    assert [frame][1..] == [];
  }

  /** The built frame continues the stream exactly where it stands. */
  lemma BuiltFrameContinues(
    format: CaptureFormat, id: StreamId, packets: seq<CapturePacket>, t: Stream, packet: CapturePacket)
    requires AllValid(packets) && packet.Valid() && Inv(format, id, packets, t)
    requires PushPacket(format, t.builder, packet).result.Ok?
    ensures var frame := PushPacket(format, t.builder, packet).result.value.frame;
            && frame.WellFormed() && frame.frameCount == packet.frameCount
            && frame.sampleRate == format.sampleRate && frame.channels == format.Channels()
            && frame.start.frameIndex == AllFrames(packets) && Exact(format.sampleRate, frame.start)
            && ToBytes(frame.samples) == CapturedBytes(packet)
            && PushPacket(format, t.builder, packet).facts.nextFrameIndex == AllFrames(packets) + packet.frameCount
            && (t.session.scheduler.IsBlank() ==> frame.start == FrameTimestamp(0, 0))
  {
    BuiltFrameIsExact(format, t.builder, packet);
    if t.session.scheduler.IsBlank() {
      assert NanosOf(0, format.sampleRate) == 0 by {
        QuotientIs(0, format.sampleRate, 0, 0);
      }
    }
  }

  lemma BytesOfMore(frames: seq<AudioFrame<Bits32>>, frame: AudioFrame<Bits32>)
    ensures ToBytes(SamplesOf(frames + [frame])) == ToBytes(SamplesOf(frames)) + ToBytes(frame.samples)
  {
    OneFrame(frame);
    SamplesOfAppend(frames, [frame]);
    ToBytesAppend(SamplesOf(frames), frame.samples);
  }

  lemma MorePackets(packets: seq<CapturePacket>, packet: CapturePacket)
    requires AllValid(packets) && packet.Valid()
    ensures AllValid(packets + [packet])
    ensures AllBytes(packets + [packet]) == AllBytes(packets) + CapturedBytes(packet)
    ensures AllFrames(packets + [packet]) == AllFrames(packets) + packet.frameCount
  {
    assert (packets + [packet])[..|packets|] == packets;
  }

  type Scheduled = Facts<StreamId, Bits32>

  /** Nothing pushed yet, or this very stream is in progress. */
  predicate Belongs(s: Scheduled, id: StreamId) {
    s.Sound() && (if s.IsBlank() then s == InitialFacts() else s.activeStream == Some(id))
  }

  lemma PushKeepsAccounts(
    id: StreamId, s: Scheduled, frame: AudioFrame<Bits32>,
    frames: seq<AudioFrame<Bits32>>, windows: seq<AudioFrame<Bits32>>)
    requires Accounts(DEFAULT_CONFIG, s, frames, windows) && Belongs(s, id) && frame.WellFormed()
    requires Push(DEFAULT_CONFIG, s, id, [frame]).result.Ok?
    ensures var pushed := Push(DEFAULT_CONFIG, s, id, [frame]);
            Accounts(DEFAULT_CONFIG, pushed.facts, frames + [frame], windows + pushed.result.value.windows)
  {
    if s.IsBlank() {
      AccountsBegin(DEFAULT_CONFIG, s, id, [frame]);
      assert frames + [frame] == [frame];
      var emitted := Push(DEFAULT_CONFIG, s, id, [frame]).result.value.windows;
      assert windows + emitted == emitted;
    } else {
      AccountsContinue(DEFAULT_CONFIG, s, id, [frame], frames, windows);
    }
  }

  /** The cut of the stream in progress, or of the one this frame begins. */
  predicate CutIs(s: Scheduled, cut: Cut) {
    s.Sound() && !s.IsBlank() && CutOf(DEFAULT_CONFIG, s) == Ok(cut)
  }

  ghost predicate FitsStream(s: Scheduled, id: StreamId, frame: AudioFrame<Bits32>, cut: Cut) {
    && Belongs(s, id) && cut.origin == FrameTimestamp(0, 0)
    && WindowFrameCount(DEFAULT_CONFIG.windowNanos, cut.rate) == Ok(cut.window)
    && frame.WellFormed() && frame.sampleRate == cut.rate && frame.channels == cut.channels
    && Exact(cut.rate, frame.start)
    && (if s.IsBlank() then frame.start == FrameTimestamp(0, 0) else CutIs(s, cut))
  }

  lemma PushCutIs(id: StreamId, s: Scheduled, frame: AudioFrame<Bits32>, cut: Cut)
    requires FitsStream(s, id, frame, cut) && Admit(DEFAULT_CONFIG, s, id, [frame]).Ok?
    ensures PushCut(DEFAULT_CONFIG, s, id, [frame]) == cut
  {
  }

  lemma PushKeepsExact(id: StreamId, s: Scheduled, frame: AudioFrame<Bits32>, cut: Cut)
    requires Whole(DEFAULT_CONFIG, s) && FitsStream(s, id, frame, cut) && BufferIsExact(s)
    requires Push(DEFAULT_CONFIG, s, id, [frame]).result.Ok?
    ensures var pushed := Push(DEFAULT_CONFIG, s, id, [frame]);
            BufferIsExact(pushed.facts) && AllExact(cut.rate, pushed.result.value.windows)
  {
    OneFrame(frame);
    PushCutIs(id, s, frame, cut);
    ZeroIsWhole(cut);
    PushIsExact(DEFAULT_CONFIG, s, id, [frame]);
  }

  lemma OneFrameEnd(expected: Option<FrameTimestamp>, frame: AudioFrame<Bits32>)
    requires CheckContinuity(expected, frame.sampleRate, frame.channels, [frame]).Ok?
    ensures TimestampAfter(frame.start, frame.frameCount, frame.sampleRate).Ok?
    ensures CheckContinuity(expected, frame.sampleRate, frame.channels, [frame]).value
         == Some(TimestampAfter(frame.start, frame.frameCount, frame.sampleRate).value)
  {
    assert [frame][1..] == [];
  }

  lemma PushMovesOn(id: StreamId, s: Scheduled, frame: AudioFrame<Bits32>, cut: Cut)
    requires Whole(DEFAULT_CONFIG, s) && FitsStream(s, id, frame, cut)
    requires Push(DEFAULT_CONFIG, s, id, [frame]).result.Ok?
    ensures var next := Push(DEFAULT_CONFIG, s, id, [frame]).facts;
            && CutIs(next, cut) && Belongs(next, id) && next.invalidStream.None?
            && next.expectedNext.Some?
            && next.expectedNext.value.frameIndex == frame.start.frameIndex + frame.frameCount
            && NearlyExact(cut.rate, next.expectedNext.value)
  {
    PushConserves(DEFAULT_CONFIG, s, id, [frame]);
    PushCutIs(id, s, frame, cut);
    OneFrameEnd(s.expectedNext, frame);
    EndOfExactIsNearlyExact(cut.rate, frame.start, frame.frameCount);
  }

  lemma ZeroIsWhole(cut: Cut)
    ensures cut.origin == FrameTimestamp(0, 0) ==> OriginIsWhole(cut)
  {
    QuotientIs(0, cut.rate, 0, 0);
    Euclid(0, cut.rate);
  }

  lemma Step(
    format: CaptureFormat, id: StreamId, packets: seq<CapturePacket>, t: Stream,
    all: seq<CapturePacket>, packet: CapturePacket, next: Stream)
    requires AllValid(packets) && packet.Valid() && Inv(format, id, packets, t)
    requires AllValid(all) && all != [] && all[..|all| - 1] == packets && all[|all| - 1] == packet
    requires Process(format, id, t, packet) == Ok(next)
    ensures Inv(format, id, all, next)
  {
    assert all == packets + [packet];
    var frame := PushPacket(format, t.builder, packet).result.value.frame;
    BuiltFrameContinues(format, id, packets, t, packet);
    PushKeepsAccounts(id, t.session.scheduler, frame, t.frames, t.windows);
    PushKeepsExact(id, t.session.scheduler, frame, CutFor(format));
    PushMovesOn(id, t.session.scheduler, frame, CutFor(format));
    BytesOfMore(t.frames, frame);
    MorePackets(packets, packet);
    var windows := Push(DEFAULT_CONFIG, t.session.scheduler, id, [frame]).result.value.windows;
    EncodedWindowsCarry(t.session.sequence, windows);
    CarryAppend(t.messages, t.windows, EncodeWindows(t.session.sequence, windows).result.value, windows);
    ExactParts(format.sampleRate, t.windows, windows);
  }

  lemma RunGoesOn(format: CaptureFormat, id: StreamId, packets: seq<CapturePacket>)
    requires AllValid(packets) && packets != [] && Run(format, id, packets).Ok?
    ensures var before, last := packets[..|packets| - 1], packets[|packets| - 1];
            && Run(format, id, before).Ok?
            && Run(format, id, packets) == Process(format, id, Run(format, id, before).value, last)
  {
  }

  lemma {:induction false} RunKeepsInv(format: CaptureFormat, id: StreamId, packets: seq<CapturePacket>)
    requires AllValid(packets) && Window(format).Ok? && Run(format, id, packets).Ok?
    ensures Inv(format, id, packets, Run(format, id, packets).value)
  {
    if packets == [] {
      InitialInv(format, id);
    } else {
      var before, last := packets[..|packets| - 1], packets[|packets| - 1];
      RunGoesOn(format, id, packets);
      RunKeepsInv(format, id, before);
      Step(format, id, before, Run(format, id, before).value, packets, last, Run(format, id, packets).value);
    }
  }
}
