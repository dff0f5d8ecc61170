/** What a reader gets from a whole run of the pipeline. */
module EndToEnd {
  import opened Base
  import opened Capture
  import opened CaptureRuns
  import opened Pipeline
  import opened Protocol
  import opened Rounding
  import opened SampleBytes
  import opened Signal
  import opened Scheduling
  import opened SchedulingCuts
  import opened SchedulingRuns

  /** The default window has at least one frame from 16 Hz up, and never too many. */
  lemma WindowExistsIff(format: CaptureFormat)
    ensures Window(format).Ok? <==> format.sampleRate >= 16
  {
  }

  /** The reader takes this message for window `k` of the stream: its place, its time, its format. */
  predicate Delivers(format: CaptureFormat, window: PositiveU32, message: EncodedEvent, k: nat) {
    message.Binary?
    && var parsed := ParseWaveform(message.bytes);
       && parsed.Ok? && parsed.value.sequence == k
       && parsed.value.frameIndex == k * window
       && parsed.value.streamTimeNs == NanosOf(k * window, format.sampleRate)
       && parsed.value.frameCount == window
       && parsed.value.channels == ChannelCount(format.Channels())
  }

  /** What follows the header of a message. */
  function Payload(message: EncodedEvent): seq<u8> {
    if message.Binary? && |message.bytes| >= 40 then message.bytes[40..] else []
  }

  function Payloads(messages: seq<EncodedEvent>): seq<u8> {
    if messages == [] then [] else Payload(messages[0]) + Payloads(messages[1..])
  }

  lemma CarriedPayload(message: EncodedEvent, sequence: nat, window: AudioFrame<Bits32>)
    requires Carries(message, sequence, window)
    ensures Payload(message) == ToBytes(window.samples)
  {
    HeaderReadsBack(sequence, window);
  }

  lemma CarryTail(messages: seq<EncodedEvent>, windows: seq<AudioFrame<Bits32>>, first: nat)
    requires MessagesCarry(messages, windows, first) && messages != []
    ensures Carries(messages[0], first, windows[0]) && MessagesCarry(messages[1..], windows[1..], first + 1)
  {
    assert Carries(messages[0], first + 0, windows[0]);
    forall k | 0 <= k < |windows[1..]|
      ensures Carries(messages[1..][k], (first + 1) + k, windows[1..][k])
    {
      assert Carries(messages[k + 1], first + (k + 1), windows[k + 1]);
    }
  }

  lemma {:induction false} PayloadsAreSamples(messages: seq<EncodedEvent>, windows: seq<AudioFrame<Bits32>>, first: nat)
    requires MessagesCarry(messages, windows, first)
    ensures Payloads(messages) == ToBytes(SamplesOf(windows))
    decreases |messages|
  {
    if messages != [] {
      CarryTail(messages, windows, first);
      CarriedPayload(messages[0], first, windows[0]);
      PayloadsAreSamples(messages[1..], windows[1..], first + 1);
      ToBytesAppend(windows[0].samples, SamplesOf(windows[1..]));
    }
  }

  /** As many windows as whole window lengths went in. */
  lemma CountOfWindows(
    s: Scheduled, cut: Cut, frames: seq<AudioFrame<Bits32>>, windows: seq<AudioFrame<Bits32>>, total: nat)
    requires Accounts(DEFAULT_CONFIG, s, frames, windows) && CutIs(s, cut) && cut.origin == FrameTimestamp(0, 0)
    requires s.expectedNext.value.frameIndex == total
    ensures |windows| == total / cut.window
  {
    TotalOfCuts(cut, windows);
    HeldIsLessThanWindow(cut, s.bufferStart, s.samples, total);
    QuotientIs(total, cut.window, |windows|, total - TotalFrames(windows));
  }

  lemma {:induction false} SizeOfCuts(cut: Cut, windows: seq<AudioFrame<Bits32>>)
    requires AreCuts(cut, windows)
    ensures |SamplesOf(windows)| == |windows| * cut.Size()
  {
    if windows != [] {
      assert AreCuts(cut, windows[1..]) by {
        forall k | 0 <= k < |windows[1..]|
          ensures IsCut(cut, windows[1..][k])
        {
          assert windows[1..][k] == windows[k + 1];
        }
      }
      SizeOfCuts(cut, windows[1..]);
      assert IsCut(cut, windows[0]);
      assert |windows| * cut.Size() == cut.Size() + |windows[1..]| * cut.Size();
    }
  }

  lemma CarriedIsDelivered(
    format: CaptureFormat, cut: Cut, messages: seq<EncodedEvent>, windows: seq<AudioFrame<Bits32>>, k: nat)
    requires cut == Cut(FrameTimestamp(0, 0), format.sampleRate, format.Channels(), cut.window)
    requires MessagesCarry(messages, windows, 0) && AreCuts(cut, windows) && Follow(windows, 0)
    requires AllExact(cut.rate, windows) && k < |messages|
    ensures Delivers(format, cut.window, messages[k], k)
  {
    WindowAt(cut, windows, 0, k);
    assert IsCut(cut, windows[k]) && Exact(cut.rate, windows[k].start);
    assert Carries(messages[k], 0 + k, windows[k]);
    ParseUndoesEncode(k, windows[k]);
  }

  lemma PrefixOfBytes(windows: seq<Bits32>, held: seq<Bits32>, all: seq<Bits32>)
    requires windows + held == all
    ensures ToBytes(windows) <= ToBytes(all)
  {
    ToBytesAppend(windows, held);
  }

  /**
   One message per whole window, numbered from zero, and the payloads together are the first bytes
   that were captured, unchanged, up to the last whole window.
   */
  predicate DeliversAll(
    format: CaptureFormat, window: PositiveU32, packets: seq<CapturePacket>, messages: seq<EncodedEvent>)
    requires AllValid(packets)
  {
    && |messages| == AllFrames(packets) / window
    && (forall k :: 0 <= k < |messages| ==> Delivers(format, window, messages[k], k))
    && Payloads(messages) <= AllBytes(packets)
    && |Payloads(messages)| == |messages| * (window * format.BytesPerFrame())
  }

  lemma BytesOfWindows(count: nat, window: nat, channels: nat)
    ensures 4 * (count * (window * channels)) == count * (window * (4 * channels))
  {
    assert 4 * (window * channels) == window * (4 * channels);
    Factor(count, window * channels);
  }

  lemma Factor(count: nat, size: nat)
    ensures 4 * (count * size) == count * (4 * size)
  {
  }

  /** End to end, for every sequence of packets that gets through. */
  lemma EndToEnd(format: CaptureFormat, id: StreamId, packets: seq<CapturePacket>)
    requires AllValid(packets) && Window(format).Ok? && Run(format, id, packets).Ok?
    ensures DeliversAll(format, Window(format).value, packets, Run(format, id, packets).value.messages)
  {
    RunKeepsInv(format, id, packets);
    InvDelivers(format, id, packets, Run(format, id, packets).value);
  }

  lemma InvDelivers(format: CaptureFormat, id: StreamId, packets: seq<CapturePacket>, t: Stream)
    requires AllValid(packets) && Inv(format, id, packets, t)
    ensures DeliversAll(format, Window(format).value, packets, t.messages)
  {
    var s, cut := t.session.scheduler, CutFor(format);
    PayloadsAreSamples(t.messages, t.windows, 0);
    PrefixOfBytes(SamplesOf(t.windows), s.samples, SamplesOf(t.frames));
    if s.IsBlank() {
      QuotientIs(0, cut.window, 0, 0);
    } else {
      CountOfWindows(s, cut, t.frames, t.windows, AllFrames(packets));
      forall k | 0 <= k < |t.messages|
        ensures Delivers(format, cut.window, t.messages[k], k)
      {
        CarriedIsDelivered(format, cut, t.messages, t.windows, k);
      }
      SizeOfCuts(cut, t.windows);
      BytesOfWindows(|t.windows|, cut.window, ChannelCount(cut.channels));
    }
  }
}
