/** What a refused packet says is so. */
module CaptureErrors {
  import opened Base
  import opened Capture
  import opened CaptureRuns
  import opened Rounding
  import opened SampleBytes
  import opened Signal

  predicate IsFirstNonFinite(bytes: seq<u8>, index: nat) {
    && 4 * index + 4 <= |bytes| && !IsFinite(WordAt(bytes, index))
    && forall i :: 0 <= i < index ==> IsFinite(WordAt(bytes, i))
  }

  lemma {:induction false} DecodingNames(bytes: seq<u8>, from: nat)
    requires |bytes| % 4 == 0 && 4 * from <= |bytes|
    requires forall i :: 0 <= i < from ==> IsFinite(WordAt(bytes, i))
    ensures DecodeFrom(bytes, from).Err? ==>
              DecodeFrom(bytes, from).error.NonFiniteSample? && IsFirstNonFinite(bytes, DecodeFrom(bytes, from).error.index)
    decreases |bytes| - 4 * from
  {
    if 4 * from < |bytes| && IsFinite(WordAt(bytes, from)) {
      DecodingNames(bytes, from + 1);
    }
  }

  /** Bytes that are no samples: the sample cut short, or else the first one that is no number. */
  lemma DecodeNames(bytes: seq<u8>)
    ensures Decode(bytes).Err? ==>
              if |bytes| % 4 != 0 then Decode(bytes).error == IncompleteFloatSample(|bytes|)
              else Decode(bytes).error.NonFiniteSample? && IsFirstNonFinite(bytes, Decode(bytes).error.index)
  {
    if |bytes| % 4 == 0 {
      DecodingNames(bytes, 0);
    }
  }

  /** What each error says of the packet and of the builder that turned it away. */
  predicate IsTrue(format: CaptureFormat, b: BuilderFacts, packet: CapturePacket, error: CaptureError)
    requires packet.Valid()
  {
    match error
    case EmptyPacket => packet.frameCount == 0
    case TimestampUnavailable => packet.flags.timestampError
    case DataDiscontinuity => packet.flags.dataDiscontinuity && b.nextDevicePosition.Some?
    case DevicePositionDiscontinuity(expected, actual) =>
      b.nextDevicePosition == Some(expected) && expected != actual == packet.devicePosition
    case NonMonotonicQpc(previous, actual) => b.previousQpc100ns == Some(previous) && previous > actual == packet.qpc100ns
    case UnexpectedPacketLength(expected, actual) =>
      expected == 4 * packet.frameCount * (if format.stereo then 2 else 1) && expected != actual == packet.byteLen
    case NonFiniteSample(index) => !packet.flags.silent && IsFirstNonFinite(packet.Bytes(), index)
    case DevicePositionOverflow => packet.devicePosition + packet.frameCount > U64_MAX
    case TimestampOverflow =>
      || NanosOf(b.nextFrameIndex, format.sampleRate) > U64_MAX
      || (b.previousQpc100ns.Some? && (packet.qpc100ns - b.previousQpc100ns.value) * 100 > U64_MAX)
    case _ => false
  }

  /** The packet is where and when the builder expects one, with as many bytes as it has frames. */
  predicate IsInPlace(format: CaptureFormat, b: BuilderFacts, packet: CapturePacket) {
    && packet.frameCount != 0 && !packet.flags.timestampError
    && (b.nextDevicePosition.Some? ==>
          !packet.flags.dataDiscontinuity && packet.devicePosition == b.nextDevicePosition.value)
    && QpcDelta(b, packet).Ok? && packet.byteLen == packet.frameCount * format.BytesPerFrame()
  }

  lemma OutOfPlaceIsNamed(format: CaptureFormat, b: BuilderFacts, packet: CapturePacket)
    requires packet.Valid() && Anchored(b) && !IsInPlace(format, b, packet)
    ensures Build(format, b, packet).Err? && IsTrue(format, b, packet, Build(format, b, packet).error)
  {
  }

  /** Of a packet in place only the samples and the time can be wrong. */
  lemma InPlaceBuilds(format: CaptureFormat, b: BuilderFacts, packet: CapturePacket)
    requires packet.Valid() && IsInPlace(format, b, packet)
    ensures var built, samples := Build(format, b, packet), PacketSamples(format, packet);
            built.Err? ==>
              if samples.Err? then built.error == samples.error
              else built.error == TimestampOverflow && NanosOf(b.nextFrameIndex, format.sampleRate) > U64_MAX
  {
    PacketSamplesAreFaithful(format, packet);
    if PacketSamples(format, packet).Ok? && FrameTimeNs(b.nextFrameIndex, format.sampleRate).Ok? {
      NewFrameOfWholeFrames(
        FrameTimestamp(b.nextFrameIndex, FrameTimeNs(b.nextFrameIndex, format.sampleRate).value), packet.frameCount,
        format.sampleRate, format.Channels(), PacketSamples(format, packet).value);
    }
  }

  lemma SamplesAreNamed(format: CaptureFormat, b: BuilderFacts, packet: CapturePacket)
    requires packet.Valid() && packet.byteLen == packet.frameCount * format.BytesPerFrame()
    ensures PacketSamples(format, packet).Err? ==> IsTrue(format, b, packet, PacketSamples(format, packet).error)
  {
    DecodeNames(packet.Bytes());
    assert packet.byteLen == 4 * (packet.frameCount * ChannelCount(format.Channels()));
  }

  /** Whatever came before, a packet the builder refuses is told what is so. */
  lemma RefusalIsTrue(format: CaptureFormat, packets: seq<CapturePacket>, packet: CapturePacket)
    requires AllValid(packets) && packet.Valid()
    ensures var b := AfterPushes(format, packets);
            var pushed := PushPacket(format, b, packet);
            pushed.result.Err? ==> IsTrue(format, b, packet, pushed.result.error)
  {
    var b := AfterPushes(format, packets);
    PushesKeepAnchored(format, packets);
    AnchoredStep(format, b, packet);
    if IsInPlace(format, b, packet) {
      InPlaceBuilds(format, b, packet);
      SamplesAreNamed(format, b, packet);
    } else {
      OutOfPlaceIsNamed(format, b, packet);
    }
  }
}
