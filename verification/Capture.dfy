/** From native capture packets to provider frames (crates/resonance-agent/src/capture.rs). */
module Capture {
  import opened Base
  import opened Rounding
  import opened SampleBytes
  import opened Signal

  datatype CaptureError =
    | UnsupportedChannelCount(count: u16)
    | InvalidFormat
    | InvalidAudioFrame(error: SignalDataError)
    | PacketLengthExceedsBuffer(byteLen: nat, bufferLen: nat)
    | UnexpectedPacketLength(expected: nat, actual: nat)
    | IncompleteFloatSample(byteCount: nat)
    | NonFiniteSample(index: nat)
    | EmptyPacket
    | TimestampUnavailable
    | DataDiscontinuity
    | DevicePositionDiscontinuity(expectedPosition: u64, actualPosition: u64)
    | NonMonotonicQpc(previousQpc: u64, actualQpc: u64)
    | DevicePositionOverflow
    | FrameIndexOverflow
    | TimestampOverflow

  /** The fixed format selected at a capture boundary: mono, or front left and front right. */
  datatype CaptureFormat = CaptureFormat(sampleRate: PositiveU32, stereo: bool) {
    function Channels(): ChannelLayout {
      if stereo then Positioned([FrontLeft, FrontRight]) else Positioned([Mono])
    }

    function BytesPerFrame(): nat {
      4 * ChannelCount(Channels())
    }
  }

  /** Exactly the positive rates with one or two channels have a format, and it keeps both. */
  function MonoOrStereo(sampleRateHz: u32, channelCount: u16): (r: Result<CaptureFormat, CaptureError>)
    ensures r.Ok? <==> sampleRateHz >= 1 && channelCount in {1, 2}
    ensures r.Ok? ==> r.value.sampleRate == sampleRateHz && ChannelCount(r.value.Channels()) == channelCount
    ensures r.Err? ==> (r.error == InvalidFormat <==> sampleRateHz < 1)
    ensures r.Err? && sampleRateHz >= 1 ==> r.error == UnsupportedChannelCount(channelCount)
  {
    if sampleRateHz == 0 then Err(InvalidFormat)
    else if channelCount == 1 then Ok(CaptureFormat(sampleRateHz, false))
    else if channelCount == 2 then Ok(CaptureFormat(sampleRateHz, true))
    else Err(UnsupportedChannelCount(channelCount))
  }

  datatype PacketFlags = PacketFlags(dataDiscontinuity: bool, silent: bool, timestampError: bool)

  /** One native packet; only the first `byteLen` bytes of its buffer are data. */
  datatype CapturePacket = CapturePacket(
    buffer: seq<u8>, byteLen: nat, frameCount: u32, devicePosition: u64, qpc100ns: u64, flags: PacketFlags)
  {
    predicate Valid() {
      byteLen <= |buffer|
    }

    function Bytes(): seq<u8>
      requires Valid()
    {
      buffer[..byteLen]
    }
  }

  function NewPacket(
    buffer: seq<u8>, byteLen: nat, frameCount: u32, devicePosition: u64, qpc100ns: u64, flags: PacketFlags):
    (r: Result<CapturePacket, CaptureError>)
    ensures r.Ok? <==> byteLen <= |buffer|
    ensures r.Ok? ==> r.value.Valid() && r.value.Bytes() == buffer[..byteLen]
    ensures r.Ok? ==> r.value.frameCount == frameCount && r.value.devicePosition == devicePosition
    ensures r.Ok? ==> r.value.qpc100ns == qpc100ns && r.value.flags == flags
    ensures r.Err? ==> r.error == PacketLengthExceedsBuffer(byteLen, |buffer|)
  {
    if byteLen > |buffer| then Err(PacketLengthExceedsBuffer(byteLen, |buffer|))
    else Ok(CapturePacket(buffer, byteLen, frameCount, devicePosition, qpc100ns, flags))
  }

  // ----- decoding -----

  /** The samples the bytes stand for, or the first one that is not finite. */
  function DecodeFrom(bytes: seq<u8>, from: nat): Result<seq<Bits32>, CaptureError>
    requires |bytes| % 4 == 0 && 4 * from <= |bytes|
    decreases |bytes| - 4 * from
  {
    if 4 * from == |bytes| then Ok([])
    else if !IsFinite(WordAt(bytes, from)) then Err(NonFiniteSample(from))
    else
      var later :- DecodeFrom(bytes, from + 1);
      Ok([WordAt(bytes, from)] + later)
  }

  function Decode(bytes: seq<u8>): Result<seq<Bits32>, CaptureError> {
    if |bytes| % 4 != 0 then Err(IncompleteFloatSample(|bytes|)) else DecodeFrom(bytes, 0)
  }

  function Following(samples: seq<Bits32>, later: Result<seq<Bits32>, CaptureError>): Result<seq<Bits32>, CaptureError> {
    match later
    case Ok(more) => Ok(samples + more)
    case Err(error) => Err(error)
  }

  lemma {:induction false} DecodedWords(bytes: seq<u8>, from: nat)
    requires |bytes| % 4 == 0 && 4 * from <= |bytes|
    ensures DecodeFrom(bytes, from).Ok? <==> forall i :: from <= i < |bytes| / 4 ==> IsFinite(WordAt(bytes, i))
    ensures DecodeFrom(bytes, from).Ok? ==>
              var samples := DecodeFrom(bytes, from).value;
              && |samples| == |bytes| / 4 - from
              && forall i :: 0 <= i < |samples| ==> samples[i] == WordAt(bytes, from + i)
    decreases |bytes| - 4 * from
  {
    if 4 * from < |bytes| {
      DecodedWords(bytes, from + 1);
    }
  }

  /** Decoding loses nothing: the samples have exactly the bytes they came from, and all are finite. */
  lemma DecodeIsFaithful(bytes: seq<u8>)
    ensures Decode(bytes).Ok? <==>
            |bytes| % 4 == 0 && forall i :: 0 <= i < |bytes| / 4 ==> IsFinite(WordAt(bytes, i))
    ensures Decode(bytes).Ok? ==>
              && |Decode(bytes).value| == |bytes| / 4
              && ToBytes(Decode(bytes).value) == bytes
              && AllFinite(Decode(bytes).value)
  {
    if |bytes| % 4 == 0 {
      DecodedWords(bytes, 0);
      if Decode(bytes).Ok? {
        WordsDetermineBytes(Decode(bytes).value, bytes);
      }
    }
  }

  method DecodeF32Le(bytes: seq<u8>) returns (r: Result<seq<Bits32>, CaptureError>)
    ensures r == Decode(bytes)
  {
    if |bytes| % 4 != 0 {
      return Err(IncompleteFloatSample(|bytes|));
    }
    var samples: seq<Bits32> := [];
    assert Following(samples, DecodeFrom(bytes, 0)) == DecodeFrom(bytes, 0) by {
      assert DecodeFrom(bytes, 0).Ok? ==> samples + DecodeFrom(bytes, 0).value == DecodeFrom(bytes, 0).value;
    }
    for i := 0 to |bytes| / 4
      invariant |samples| == i
      invariant Decode(bytes) == Following(samples, DecodeFrom(bytes, i))
    {
      var sample := WordAt(bytes, i);
      if !IsFinite(sample) {
        return Err(NonFiniteSample(|samples|));
      }
      ghost var later := DecodeFrom(bytes, i + 1);
      if later.Ok? {
        Associative(samples, [sample], later.value);
      }
      samples := samples + [sample];
    }
    assert samples + [] == samples;
    return Ok(samples);
  }

  // ----- building frames -----

  /** Exact frame time; the `u128` product cannot overflow. */
  function FrameTimeNs(frameIndex: u64, rate: PositiveU32): Result<u64, CaptureError> {
    if NanosOf(frameIndex, rate) > U64_MAX then Err(TimestampOverflow) else Ok(NanosOf(frameIndex, rate))
  }

  datatype BuilderFacts =
    BuilderFacts(nextDevicePosition: Option<u64>, nextFrameIndex: u64, previousQpc100ns: Option<u64>)

  const INITIAL_BUILDER := BuilderFacts(None, 0, None)

  datatype BuiltFrame = BuiltFrame(frame: AudioFrame<Bits32>, qpcDeltaNs: Option<u64>, initialDiscontinuity: bool)

  function QpcDelta(b: BuilderFacts, packet: CapturePacket): Result<Option<u64>, CaptureError> {
    match b.previousQpc100ns
    case None => Ok(None)
    case Some(previous) =>
      if packet.qpc100ns < previous then Err(NonMonotonicQpc(previous, packet.qpc100ns))
      else if (packet.qpc100ns - previous) * 100 > U64_MAX then Err(TimestampOverflow)
      else Ok(Some((packet.qpc100ns - previous) * 100))
  }

  /** The samples of a packet; a silent one stands for zeros whatever its buffer holds. */
  function PacketSamples(format: CaptureFormat, packet: CapturePacket): Result<seq<Bits32>, CaptureError>
    requires packet.Valid()
  {
    if packet.flags.silent then Ok(seq(packet.frameCount * ChannelCount(format.Channels()), _ => 0))
    else Decode(packet.Bytes())
  }

  /** Everything that turns a packet away before the builder changes. */
  function Build(format: CaptureFormat, b: BuilderFacts, packet: CapturePacket): Result<BuiltFrame, CaptureError>
    requires packet.Valid()
  {
    var _ :- Require(packet.frameCount != 0, EmptyPacket);
    var _ :- Require(!packet.flags.timestampError, TimestampUnavailable);
    var first := b.nextDevicePosition.None?;
    var _ :- Require(first || !packet.flags.dataDiscontinuity, DataDiscontinuity);
    var _ :- Require(first || packet.devicePosition == b.nextDevicePosition.value,
                     DevicePositionDiscontinuity(if first then 0 else b.nextDevicePosition.value, packet.devicePosition));
    var qpcDelta :- QpcDelta(b, packet);
    var expectedBytes := packet.frameCount * format.BytesPerFrame();
    var _ :- Require(packet.byteLen == expectedBytes, UnexpectedPacketLength(expectedBytes, packet.byteLen));
    var samples :- PacketSamples(format, packet);
    var streamTimeNs :- FrameTimeNs(b.nextFrameIndex, format.sampleRate);
    match NewFrame(FrameTimestamp(b.nextFrameIndex, streamTimeNs), format.sampleRate, format.Channels(), samples)
    case Err(error) => Err(InvalidAudioFrame(error))
    case Ok(frame) => Ok(BuiltFrame(frame, qpcDelta, first && packet.flags.dataDiscontinuity))
  }

  datatype BuilderPushed = BuilderPushed(facts: BuilderFacts, result: Result<BuiltFrame, CaptureError>)

  function PushPacket(format: CaptureFormat, b: BuilderFacts, packet: CapturePacket): BuilderPushed
    requires packet.Valid()
  {
    match Build(format, b, packet)
    case Err(error) => BuilderPushed(b, Err(error))
    case Ok(built) =>
      if packet.devicePosition + packet.frameCount > U64_MAX then BuilderPushed(b, Err(DevicePositionOverflow))
      else
        var moved := b.(nextDevicePosition := Some(packet.devicePosition + packet.frameCount));
        if b.nextFrameIndex + packet.frameCount > U64_MAX then BuilderPushed(moved, Err(FrameIndexOverflow))
        else
          BuilderPushed(moved.(nextFrameIndex := b.nextFrameIndex + packet.frameCount,
                               previousQpc100ns := Some(packet.qpc100ns)),
                        Ok(built))
  }

  /** The bytes a packet contributes to the stream: its own, or zeros when it is silent. */
  function CapturedBytes(packet: CapturePacket): seq<u8>
    requires packet.Valid()
  {
    if packet.flags.silent then seq(packet.byteLen, _ => 0) else packet.Bytes()
  }

  /** A packet of whole frames yields one sample per channel and frame, with the packet's own bytes. */
  lemma PacketSamplesAreFaithful(format: CaptureFormat, packet: CapturePacket)
    requires packet.Valid() && packet.byteLen == packet.frameCount * format.BytesPerFrame()
    ensures PacketSamples(format, packet).Ok? <==>
            packet.flags.silent || forall i :: 0 <= i < packet.byteLen / 4 ==> IsFinite(WordAt(packet.Bytes(), i))
    ensures PacketSamples(format, packet).Ok? ==>
            var samples := PacketSamples(format, packet).value;
            && |samples| == packet.frameCount * ChannelCount(format.Channels())
            && ToBytes(samples) == CapturedBytes(packet) && AllFinite(samples)
  {
    var count := packet.frameCount * ChannelCount(format.Channels());
    assert packet.byteLen == 4 * count;
    if packet.flags.silent {
      ZeroBytes(count);
    } else {
      DecodeIsFaithful(packet.Bytes());
    }
  }

  /** An accepted packet becomes one frame at the next index, exactly timed, with the packet's own bytes. */
  lemma BuiltFrameIsExact(format: CaptureFormat, b: BuilderFacts, packet: CapturePacket)
    requires packet.Valid() && Build(format, b, packet).Ok?
    ensures var frame := Build(format, b, packet).value.frame;
            && frame.WellFormed() && frame.frameCount == packet.frameCount
            && frame.start == FrameTimestamp(b.nextFrameIndex, NanosOf(b.nextFrameIndex, format.sampleRate))
            && frame.sampleRate == format.sampleRate && frame.channels == format.Channels()
            && ToBytes(frame.samples) == CapturedBytes(packet)
            && AllFinite(frame.samples)
  {
    var samples := PacketSamples(format, packet).value;
    PacketSamplesAreFaithful(format, packet);
    NewFrameOfWholeFrames(Build(format, b, packet).value.frame.start, packet.frameCount, format.sampleRate,
                          format.Channels(), samples);
  }

  /** Exactly which packets are accepted, and that the frame constructor never refuses one. */
  lemma AcceptedIff(format: CaptureFormat, b: BuilderFacts, packet: CapturePacket)
    requires packet.Valid()
    ensures PushPacket(format, b, packet).result.Ok? <==>
            && packet.frameCount != 0 && !packet.flags.timestampError
            && (b.nextDevicePosition.Some? ==>
                  !packet.flags.dataDiscontinuity && packet.devicePosition == b.nextDevicePosition.value)
            && (b.previousQpc100ns.Some? ==>
                  0 <= (packet.qpc100ns - b.previousQpc100ns.value) * 100 <= U64_MAX)
            && packet.byteLen == packet.frameCount * format.BytesPerFrame()
            && (packet.flags.silent
                || forall i :: 0 <= i < packet.byteLen / 4 ==> IsFinite(WordAt(packet.Bytes(), i)))
            && NanosOf(b.nextFrameIndex, format.sampleRate) <= U64_MAX
            && packet.devicePosition + packet.frameCount <= U64_MAX
            && b.nextFrameIndex + packet.frameCount <= U64_MAX
  {
    if packet.byteLen == packet.frameCount * format.BytesPerFrame() && packet.frameCount != 0 {
      PacketSamplesAreFaithful(format, packet);
      if PacketSamples(format, packet).Ok? && FrameTimeNs(b.nextFrameIndex, format.sampleRate).Ok? {
        NewFrameOfWholeFrames(
          FrameTimestamp(b.nextFrameIndex, FrameTimeNs(b.nextFrameIndex, format.sampleRate).value), packet.frameCount,
          format.sampleRate, format.Channels(), PacketSamples(format, packet).value);
      }
    }
  }

  class AudioFrameBuilder {
    const format: CaptureFormat
    var nextDevicePosition: Option<u64>
    var nextFrameIndex: u64
    var previousQpc100ns: Option<u64>

    function Value(): BuilderFacts
      reads this
    {
      BuilderFacts(nextDevicePosition, nextFrameIndex, previousQpc100ns)
    }

    constructor (format: CaptureFormat)
      ensures this.format == format && Value() == INITIAL_BUILDER
    {
      this.format := format;
      nextDevicePosition, nextFrameIndex, previousQpc100ns := None, 0, None;
    }

    method Push(packet: CapturePacket) returns (r: Result<BuiltFrame, CaptureError>)
      requires packet.Valid()
      modifies this
      ensures Value() == PushPacket(format, old(Value()), packet).facts
      ensures r == PushPacket(format, old(Value()), packet).result
    {
      if packet.frameCount == 0 {
        return Err(EmptyPacket);
      }
      if packet.flags.timestampError {
        return Err(TimestampUnavailable);
      }
      var firstPacket := nextDevicePosition.None?;
      if !firstPacket && packet.flags.dataDiscontinuity {
        return Err(DataDiscontinuity);
      }
      if nextDevicePosition.Some? && packet.devicePosition != nextDevicePosition.value {
        return Err(DevicePositionDiscontinuity(nextDevicePosition.value, packet.devicePosition));
      }
      var qpcDelta :- QpcDelta(Value(), packet);
      var expectedBytes := packet.frameCount * format.BytesPerFrame();
      if packet.byteLen != expectedBytes {
        return Err(UnexpectedPacketLength(expectedBytes, packet.byteLen));
      }
      var samples: seq<Bits32>;
      if packet.flags.silent {
        samples := seq(packet.frameCount * ChannelCount(format.Channels()), _ => 0);
      } else {
        samples :- DecodeF32Le(packet.Bytes());
      }
      var streamTimeNs :- FrameTimeNs(nextFrameIndex, format.sampleRate);
      var frame := NewFrame(FrameTimestamp(nextFrameIndex, streamTimeNs), format.sampleRate, format.Channels(), samples);
      if frame.Err? {
        return Err(InvalidAudioFrame(frame.error));
      }
      var position :- CheckedAdd(packet.devicePosition, packet.frameCount, DevicePositionOverflow);
      nextDevicePosition := Some(position);
      var index :- CheckedAdd(nextFrameIndex, packet.frameCount, FrameIndexOverflow);
      nextFrameIndex := index;
      previousQpc100ns := Some(packet.qpc100ns);
      return Ok(BuiltFrame(frame.value, qpcDelta, firstPacket && packet.flags.dataDiscontinuity));
    }
  }
}
