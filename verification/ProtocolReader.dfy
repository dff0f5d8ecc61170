/** Exactly which payloads are encoded frames, and which frames are encoded. */
module ProtocolReader {
  import opened Base
  import opened LittleEndian
  import opened Protocol
  import opened SampleBytes
  import opened Signal

  /** Eight header bytes carry nothing. */
  predicate LeavesReservedZero(payload: seq<u8>)
    requires |payload| >= 40
  {
    Field(payload, 6, 2) == 0 && Field(payload, 38, 2) == 0
  }

  /** The frame a payload describes; its rate is not part of it. */
  function FrameIn(payload: seq<u8>, rate: PositiveU32): AudioFrame<Bits32>
    requires ParseWaveform(payload).Ok? && ParseWaveform(payload).value.frameCount >= 1
  {
    var w := ParseWaveform(payload).value;
    FieldFits(payload, 16, 8);
    FieldFits(payload, 24, 8);
    FieldFits(payload, 32, 4);
    AudioFrame(FrameTimestamp(w.frameIndex, w.streamTimeNs), w.frameCount, rate, Discrete(w.channels),
               FirstWords(payload[40..], w.frameCount * w.channels))
  }

  lemma FieldFits(payload: seq<u8>, offset: nat, width: nat)
    requires offset + width <= |payload|
    ensures Field(payload, offset, width) < Capacity(width)
    ensures width == 8 ==> Field(payload, offset, width) <= U64_MAX
    ensures width == 4 ==> Field(payload, offset, width) <= U32_MAX
    ensures ToLe(Field(payload, offset, width), width) == payload[offset..offset + width]
  {
    Capacities();
    FromToLe(payload[offset..offset + width]);
  }

  lemma CutInFront(payload: seq<u8>, from: nat, to: nat, n: nat, tail: seq<u8>)
    requires from <= to <= |payload|
    requires tail == payload[to..] && ToLe(n, to - from) == payload[from..to]
    ensures Put(n, to - from, tail) == payload[from..]
  {
  }

  lemma FieldsAreHeader(payload: seq<u8>, frame: AudioFrame<Bits32>, sequence: u64)
    requires |payload| >= 40 && LeavesReservedZero(payload)
    requires payload[..6] == BINARY_MAGIC + [PROTOCOL_VERSION, BINARY_HEADER_LEN]
    requires sequence == Field(payload, 8, 8) && frame.start.frameIndex == Field(payload, 16, 8)
    requires frame.start.streamTimeNs == Field(payload, 24, 8) && frame.frameCount == Field(payload, 32, 4)
    requires ChannelCount(frame.channels) == Field(payload, 36, 2) && ToBytes(frame.samples) == payload[40..]
    ensures BINARY_MAGIC + [PROTOCOL_VERSION, BINARY_HEADER_LEN] + PutFields(sequence, frame) == payload
  {
    var t7 := ToBytes(frame.samples);
    FieldFits(payload, 38, 2);
    CutInFront(payload, 38, 40, 0, t7);
    var t6 := Put(0, 2, t7);
    FieldFits(payload, 36, 2);
    CutInFront(payload, 36, 38, ChannelCount(frame.channels), t6);
    var t5 := Put(ChannelCount(frame.channels), 2, t6);
    FieldFits(payload, 32, 4);
    CutInFront(payload, 32, 36, frame.frameCount, t5);
    var t4 := Put(frame.frameCount, 4, t5);
    FieldFits(payload, 24, 8);
    CutInFront(payload, 24, 32, frame.start.streamTimeNs, t4);
    var t3 := Put(frame.start.streamTimeNs, 8, t4);
    FieldFits(payload, 16, 8);
    CutInFront(payload, 16, 24, frame.start.frameIndex, t3);
    var t2 := Put(frame.start.frameIndex, 8, t3);
    FieldFits(payload, 8, 8);
    CutInFront(payload, 8, 16, sequence, t2);
    var t1 := Put(sequence, 8, t2);
    FieldFits(payload, 6, 2);
    CutInFront(payload, 6, 8, 0, t1);
    assert payload == payload[..6] + payload[6..];
  }

  lemma WordsInPayload(payload: seq<u8>, count: nat)
    requires |payload| == 40 + 4 * count
    ensures ToBytes(FirstWords(payload[40..], count)) == payload[40..]
  {
    WordsDetermineBytes(FirstWords(payload[40..], count), payload[40..]);
  }

  /** Whatever the reader accepts with at least one frame, within the size limit, is the encoding of the frame it reads. */
  lemma AcceptedIsEncoding(payload: seq<u8>, rate: PositiveU32)
    requires ParseWaveform(payload).Ok? && ParseWaveform(payload).value.frameCount >= 1
    requires LeavesReservedZero(payload) && |payload| <= MAX_BINARY_FRAME_BYTES
    ensures ParseWaveform(payload).value.sequence <= U64_MAX
    ensures EncodeWaveformFrame(ParseWaveform(payload).value.sequence, FrameIn(payload, rate)) == Ok(payload)
  {
    var w, frame := ParseWaveform(payload).value, FrameIn(payload, rate);
    FieldFits(payload, 8, 8);
    WordsInPayload(payload, w.frameCount * w.channels);
    assert payload[..6] == BINARY_MAGIC + [PROTOCOL_VERSION, BINARY_HEADER_LEN] by {
      assert payload[..6] == payload[..4] + [payload[4], payload[5]];
    }
    FieldsAreHeader(payload, frame, w.sequence);
  }

  predicate Encodes(sequence: u64, frame: AudioFrame<Bits32>, payload: seq<u8>) {
    EncodeWaveformFrame(sequence, frame) == Ok(payload)
  }

  ghost predicate IsEncoded(payload: seq<u8>) {
    exists sequence: u64, frame: AudioFrame<Bits32> :: Encodes(sequence, frame, payload)
  }

  /** What the reader checks of a payload, the reserved bytes besides. */
  predicate IsReadable(payload: seq<u8>) {
    && ParseWaveform(payload).Ok? && ParseWaveform(payload).value.frameCount >= 1
    && LeavesReservedZero(payload) && |payload| <= MAX_BINARY_FRAME_BYTES
  }

  lemma EncodedIsReadable(sequence: u64, frame: AudioFrame<Bits32>, payload: seq<u8>)
    requires Encodes(sequence, frame, payload)
    ensures IsReadable(payload)
  {
    ParseUndoesEncode(sequence, frame);
    HeaderReadsBack(sequence, frame);
  }

  /** Exactly which payloads stand for a frame. */
  lemma IsEncodedIff(payload: seq<u8>)
    ensures IsEncoded(payload) <==> IsReadable(payload)
  {
    if IsReadable(payload) {
      AcceptedIsEncoding(payload, 1);
      assert Encodes(ParseWaveform(payload).value.sequence, FrameIn(payload, 1), payload);
    }
    if IsEncoded(payload) {
      var sequence, frame :| Encodes(sequence, frame, payload);
      EncodedIsReadable(sequence, frame, payload);
    }
  }

  /** What each error of the writer says of the frame. */
  predicate IsTrue(frame: AudioFrame<Bits32>, error: EncodeError) {
    match error
    case UnsupportedChannels => ChannelCount(frame.channels) > 2
    case SampleCountMismatch => !frame.WellFormed()
    case FrameTooLarge => |frame.samples| > 262_134
    case _ => false
  }

  predicate IsEncodable(frame: AudioFrame<Bits32>) {
    frame.WellFormed() && ChannelCount(frame.channels) <= 2 && |frame.samples| <= 262_134
  }

  /** A frame is encoded exactly if it is whole, mono or stereo, and fits; otherwise it is told what is so. */
  lemma EncodesIff(sequence: u64, frame: AudioFrame<Bits32>)
    ensures EncodeWaveformFrame(sequence, frame).Ok? <==> IsEncodable(frame)
    ensures EncodeWaveformFrame(sequence, frame).Err? ==> IsTrue(frame, EncodeWaveformFrame(sequence, frame).error)
  {
  }

  /** How many windows come before the first that cannot be encoded. */
  function Encodable(windows: seq<AudioFrame<Bits32>>): (count: nat)
    ensures count <= |windows|
  {
    if windows == [] || !IsEncodable(windows[0]) then 0 else 1 + Encodable(windows[1..])
  }

  lemma OneWindow(sequence: u64, windows: seq<AudioFrame<Bits32>>)
    requires windows != [] && sequence < U64_MAX
    ensures var encoded, later := EncodeWindows(sequence, windows), EncodeWindows(sequence + 1, windows[1..]);
            if IsEncodable(windows[0]) then
              && encoded.sequence == later.sequence && (encoded.result.Ok? <==> later.result.Ok?)
              && (if later.result.Ok? then |encoded.result.value| == 1 + |later.result.value|
                  else encoded.result.error == later.result.error)
            else encoded.sequence == sequence + 1 && encoded.result.Err? && IsTrue(windows[0], encoded.result.error)
  {
    EncodesIff(sequence, windows[0]);
  }

  /**
   Windows are encoded up to the first that cannot be, or the last number there is; that window's own
   error is told, or that the numbers ran out, and the number of every window tried is spent.
   */
  lemma {:induction false} WindowsEncodeIff(sequence: u64, windows: seq<AudioFrame<Bits32>>)
    ensures var encoded, count := EncodeWindows(sequence, windows), Encodable(windows);
            if sequence + count > U64_MAX || (sequence + count == U64_MAX && count < |windows|) then
              encoded == Encoded(U64_MAX, Err(SequenceOverflow))
            else if count < |windows| then
              encoded.sequence == sequence + count + 1 && encoded.result.Err? && IsTrue(windows[count], encoded.result.error)
            else encoded.sequence == sequence + count && encoded.result.Ok? && |encoded.result.value| == count
    decreases |windows|
  {
    if windows != [] && sequence < U64_MAX {
      OneWindow(sequence, windows);
      WindowsEncodeIff(sequence + 1, windows[1..]);
    }
  }
}
