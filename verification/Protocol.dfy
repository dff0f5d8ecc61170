/**
 The binary waveform protocol (crates/resonance-agent/src/protocol.rs) and the reader that
 undoes it (examples/consumer.py).
 */
module Protocol {
  import opened Base
  import opened LittleEndian
  import opened SampleBytes
  import opened Signal
  import S = Scheduler
  import Scheduling

  const PROTOCOL_VERSION: u8 := 1
  const BINARY_HEADER_LEN: u8 := 40
  const BINARY_MAGIC: seq<u8> := [0x52, 0x53, 0x57, 0x46]
  const MAX_BINARY_FRAME_BYTES: nat := 1_048_576

  datatype EncodeError =
    | UnsupportedChannels
    | SampleCountMismatch
    | FrameTooLarge
    | SequenceOverflow
    | NotScheduled(error: Scheduling.SchedulingError)

  /** The fixed header fields, in order, in front of the samples. */
  function PutFields(sequence: u64, frame: AudioFrame<Bits32>): seq<u8> {
    Put(0, 2, Put(sequence, 8, Put(frame.start.frameIndex, 8, Put(frame.start.streamTimeNs, 8,
      Put(frame.frameCount, 4, Put(ChannelCount(frame.channels), 2, Put(0, 2, ToBytes(frame.samples))))))))
  }

  function EncodeWaveformFrame(sequence: u64, frame: AudioFrame<Bits32>): Result<seq<u8>, EncodeError> {
    var channels := ChannelCount(frame.channels);
    if channels > 2 then Err(UnsupportedChannels)
    else if frame.frameCount * channels != |frame.samples| then Err(SampleCountMismatch)
    else if BINARY_HEADER_LEN + 4 * |frame.samples| > MAX_BINARY_FRAME_BYTES then Err(FrameTooLarge)
    else Ok(BINARY_MAGIC + [PROTOCOL_VERSION, BINARY_HEADER_LEN] + PutFields(sequence, frame))
  }

  // ----- the reader -----

  datatype ParseError = InvalidMagic | UnsupportedVersion | InvalidLength

  datatype Waveform = Waveform(
    sequence: nat, frameIndex: nat, streamTimeNs: nat, frameCount: nat, channels: nat, firstSamples: seq<Bits32>)

  /** Little-endian `width` bytes at a fixed offset. */
  function Field(payload: seq<u8>, offset: nat, width: nat): nat
    requires offset + width <= |payload|
  {
    FromLe(payload[offset..offset + width])
  }

  function FirstWords(payload: seq<u8>, count: nat): seq<Bits32>
    requires 4 * count <= |payload|
  {
    seq(count, i requires 0 <= i < count => WordAt(payload, i))
  }

  function ParseWaveform(payload: seq<u8>): Result<Waveform, ParseError> {
    if |payload| < 40 || payload[..4] != BINARY_MAGIC then Err(InvalidMagic)
    else if payload[4] != 1 || payload[5] != 40 then Err(UnsupportedVersion)
    else
      var frameCount, channels := Field(payload, 32, 4), Field(payload, 36, 2);
      if !(channels == 1 || channels == 2) || |payload| != 40 + frameCount * channels * 4 then Err(InvalidLength)
      else
        Ok(Waveform(Field(payload, 8, 8), Field(payload, 16, 8), Field(payload, 24, 8), frameCount, channels,
                    FirstWords(payload[40..], Min(4, frameCount * channels))))
  }

  // ----- round trip -----

  lemma FieldBehind(prefix: seq<u8>, n: nat, width: nat, tail: seq<u8>)
    requires n < Capacity(width)
    ensures Field(prefix + Put(n, width, tail), |prefix|, width) == n
    ensures prefix + Put(n, width, tail) == (prefix + ToLe(n, width)) + tail
  {
    ToFromLe(n, width);
    assert (prefix + Put(n, width, tail))[|prefix|..|prefix| + width] == ToLe(n, width);
    Associative(prefix, ToLe(n, width), tail);
  }

  /** Each header field of an encoded frame reads back, and the samples follow the header. */
  lemma HeaderReadsBack(sequence: u64, frame: AudioFrame<Bits32>)
    requires EncodeWaveformFrame(sequence, frame).Ok?
    ensures var p := EncodeWaveformFrame(sequence, frame).value;
            && |p| == 40 + 4 * |frame.samples|
            && p[..4] == BINARY_MAGIC && p[4] == 1 && p[5] == 40
            && Field(p, 8, 8) == sequence
            && Field(p, 16, 8) == frame.start.frameIndex
            && Field(p, 24, 8) == frame.start.streamTimeNs
            && Field(p, 32, 4) == frame.frameCount
            && Field(p, 36, 2) == ChannelCount(frame.channels)
            && Field(p, 6, 2) == 0 && Field(p, 38, 2) == 0
            && p[40..] == ToBytes(frame.samples)
  {
    Capacities();
    var p := EncodeWaveformFrame(sequence, frame).value;
    var t7 := ToBytes(frame.samples);
    var t6 := Put(0, 2, t7);
    var t5 := Put(ChannelCount(frame.channels), 2, t6);
    var t4 := Put(frame.frameCount, 4, t5);
    var t3 := Put(frame.start.streamTimeNs, 8, t4);
    var t2 := Put(frame.start.frameIndex, 8, t3);
    var t1 := Put(sequence, 8, t2);
    var h0 := BINARY_MAGIC + [PROTOCOL_VERSION, BINARY_HEADER_LEN];
    FieldBehind(h0, 0, 2, t1);
    var h1 := h0 + ToLe(0, 2);
    FieldBehind(h1, sequence, 8, t2);
    var h2 := h1 + ToLe(sequence, 8);
    FieldBehind(h2, frame.start.frameIndex, 8, t3);
    var h3 := h2 + ToLe(frame.start.frameIndex, 8);
    FieldBehind(h3, frame.start.streamTimeNs, 8, t4);
    var h4 := h3 + ToLe(frame.start.streamTimeNs, 8);
    FieldBehind(h4, frame.frameCount, 4, t5);
    var h5 := h4 + ToLe(frame.frameCount, 4);
    FieldBehind(h5, ChannelCount(frame.channels), 2, t6);
    var h6 := h5 + ToLe(ChannelCount(frame.channels), 2);
    FieldBehind(h6, 0, 2, t7);
    var h7 := h6 + ToLe(0, 2);
    assert p == h7 + t7 && |h7| == 40;
    assert h7[..6] == h0;
  }

  /** The reader recovers everything that was encoded, and the payload carries the samples byte for byte. */
  lemma ParseUndoesEncode(sequence: u64, frame: AudioFrame<Bits32>)
    requires EncodeWaveformFrame(sequence, frame).Ok?
    ensures var p := EncodeWaveformFrame(sequence, frame).value;
            && ParseWaveform(p) == Ok(Waveform(sequence, frame.start.frameIndex, frame.start.streamTimeNs,
                                               frame.frameCount, ChannelCount(frame.channels),
                                               frame.samples[..Min(4, |frame.samples|)]))
            && p[40..] == ToBytes(frame.samples)
  {
    HeaderReadsBack(sequence, frame);
    FirstWordsOf(frame.samples, Min(4, |frame.samples|));
  }

  lemma FirstWordsOf(samples: seq<Bits32>, count: nat)
    requires count <= |samples|
    ensures FirstWords(ToBytes(samples), count) == samples[..count]
  {
    var words := FirstWords(ToBytes(samples), count);
    forall i | 0 <= i < count
      ensures words[i] == samples[..count][i]
    {
      WordOfToBytes(samples, i);
    }
  }

  /** Appending the header fields one after the other gives the header in front of the samples. */
  lemma FieldsInFront(sequence: u64, frame: AudioFrame<Bits32>, h: seq<u8>)
    requires ChannelCount(frame.channels) <= 2
    ensures h + PutFields(sequence, frame)
         == h + ToLe(0, 2) + ToLe(sequence, 8) + ToLe(frame.start.frameIndex, 8) + ToLe(frame.start.streamTimeNs, 8)
            + ToLe(frame.frameCount, 4) + ToLe(ChannelCount(frame.channels), 2) + ToLe(0, 2) + ToBytes(frame.samples)
  {
    var t7 := ToBytes(frame.samples);
    var t6 := Put(0, 2, t7);
    var t5 := Put(ChannelCount(frame.channels), 2, t6);
    var t4 := Put(frame.frameCount, 4, t5);
    var t3 := Put(frame.start.streamTimeNs, 8, t4);
    var t2 := Put(frame.start.frameIndex, 8, t3);
    var t1 := Put(sequence, 8, t2);
    var h1 := h + ToLe(0, 2);
    Associative(h, ToLe(0, 2), t1);
    var h2 := h1 + ToLe(sequence, 8);
    Associative(h1, ToLe(sequence, 8), t2);
    var h3 := h2 + ToLe(frame.start.frameIndex, 8);
    Associative(h2, ToLe(frame.start.frameIndex, 8), t3);
    var h4 := h3 + ToLe(frame.start.streamTimeNs, 8);
    Associative(h3, ToLe(frame.start.streamTimeNs, 8), t4);
    var h5 := h4 + ToLe(frame.frameCount, 4);
    Associative(h4, ToLe(frame.frameCount, 4), t5);
    var h6 := h5 + ToLe(ChannelCount(frame.channels), 2);
    Associative(h5, ToLe(ChannelCount(frame.channels), 2), t6);
    Associative(h6, ToLe(0, 2), t7);
  }

  method WriteWaveformFrame(sequence: u64, frame: AudioFrame<Bits32>) returns (r: Result<seq<u8>, EncodeError>)
    ensures r == EncodeWaveformFrame(sequence, frame)
  {
    var channels := ChannelCount(frame.channels);
    if channels > 2 {
      return Err(UnsupportedChannels);
    }
    if frame.frameCount * channels != |frame.samples| {
      return Err(SampleCountMismatch);
    }
    if BINARY_HEADER_LEN + 4 * |frame.samples| > MAX_BINARY_FRAME_BYTES {
      return Err(FrameTooLarge);
    }
    var output := BINARY_MAGIC + [PROTOCOL_VERSION, BINARY_HEADER_LEN];
    FieldsInFront(sequence, frame, output);
    output := output + ToLe(0, 2) + ToLe(sequence, 8) + ToLe(frame.start.frameIndex, 8);
    output := output + ToLe(frame.start.streamTimeNs, 8) + ToLe(frame.frameCount, 4) + ToLe(channels, 2) + ToLe(0, 2);
    var samples := AppendSamples(output, frame.samples);
    return Ok(samples);
  }

  method AppendSamples(header: seq<u8>, samples: seq<Bits32>) returns (output: seq<u8>)
    ensures output == header + ToBytes(samples)
  {
    output := header;
    for i := 0 to |samples|
      invariant output == header + ToBytes(samples[..i])
    {
      assert samples[..i + 1] == samples[..i] + [samples[i]];
      ToBytesAppend(samples[..i], [samples[i]]);
      assert ToBytes([samples[i]]) == ToLe(samples[i], 4);
      Associative(header, ToBytes(samples[..i]), ToLe(samples[i], 4));
      output := output + ToLe(samples[i], 4);
    }
    assert samples[..|samples|] == samples;
  }

  // ----- the session -----

  type StreamId = string

  /** Everything an event carries besides what is read here: its JSON content, unchanged. */
  type Details = string

  datatype StreamEvent =
    | EventStarted(descriptor: Details)
    | EventWaveform(streamId: StreamId, frame: AudioFrame<Bits32>)
    | EventOtherData
    | EventError(error: Details)
    | EventEnded(streamId: StreamId, reason: Details)
    | EventUnknown

  datatype EncodedEvent = Text(event: StreamEvent) | Binary(bytes: seq<u8>)

  datatype SessionFacts =
    SessionFacts(scheduler: Scheduling.Facts<StreamId, Bits32>, sequence: u64)

  datatype Encoded = Encoded(sequence: u64, result: Result<seq<EncodedEvent>, EncodeError>)

  /** Windows take consecutive sequence numbers; the number of a window that fails is spent. */
  function EncodeWindows(sequence: u64, windows: seq<AudioFrame<Bits32>>): Encoded
    decreases |windows|
  {
    if windows == [] then Encoded(sequence, Ok([]))
    else if sequence == U64_MAX then Encoded(sequence, Err(SequenceOverflow))
    else
      match EncodeWaveformFrame(sequence, windows[0])
      case Err(error) => Encoded(sequence + 1, Err(error))
      case Ok(bytes) =>
        var later := EncodeWindows(sequence + 1, windows[1..]);
        match later.result
        case Err(error) => later
        case Ok(events) => Encoded(later.sequence, Ok([Binary(bytes)] + events))
  }

  datatype SessionEncoded = SessionEncoded(facts: SessionFacts, result: Result<seq<EncodedEvent>, EncodeError>)

  const DEFAULT_CONFIG: Scheduling.Config :=
    Scheduling.Config(Scheduling.DEFAULT_WINDOW_NANOS, Scheduling.DEFAULT_MAX_WINDOWS)

  function Encode(s: SessionFacts, event: StreamEvent): SessionEncoded
    requires s.scheduler.Sound()
  {
    match event
    case EventStarted(_) => SessionEncoded(s, Ok([Text(event)]))
    case EventError(_) => SessionEncoded(s, Ok([Text(event)]))
    case EventEnded(_, _) => SessionEncoded(s, Ok([Text(event)]))
    case EventOtherData => SessionEncoded(s, Ok([]))
    case EventUnknown => SessionEncoded(s, Ok([]))
    case EventWaveform(id, frame) =>
      var pushed := Scheduling.Push(DEFAULT_CONFIG, s.scheduler, id, [frame]);
      match pushed.result
      case Err(error) => SessionEncoded(s.(scheduler := pushed.facts), Err(NotScheduled(error)))
      case Ok(scheduled) =>
        var encoded := EncodeWindows(s.sequence, scheduled.windows);
        SessionEncoded(SessionFacts(pushed.facts, encoded.sequence), encoded.result)
  }

  class SessionEncoder {
    const scheduler: S.WindowScheduler<StreamId, Bits32>
    var sequence: u64

    function Value(): SessionFacts
      reads this, scheduler
    {
      SessionFacts(scheduler.Value(), sequence)
    }

    ghost predicate Valid()
      reads this, scheduler
    {
      scheduler.config == DEFAULT_CONFIG && scheduler.Value().Sound()
    }

    constructor ()
      ensures Valid() && fresh(scheduler) && Value() == SessionFacts(Scheduling.InitialFacts(), 0)
    {
      scheduler := new S.WindowScheduler(DEFAULT_CONFIG);
      sequence := 0;
    }

    method EncodeEvent(event: StreamEvent) returns (r: Result<seq<EncodedEvent>, EncodeError>)
      requires Valid() && (event.EventWaveform? ==> event.frame.WellFormed())
      modifies this, scheduler
      ensures Valid()
      ensures Value() == Encode(old(Value()), event).facts && r == Encode(old(Value()), event).result
    {
      match event
      case EventStarted(_) => return Ok([Text(event)]);
      case EventError(_) => return Ok([Text(event)]);
      case EventEnded(_, _) => return Ok([Text(event)]);
      case EventOtherData => return Ok([]);
      case EventUnknown => return Ok([]);
      case EventWaveform(id, frame) =>
        var scheduled := scheduler.PushBatch(id, [frame]);
        if scheduled.Err? {
          return Err(NotScheduled(scheduled.error));
        }
        r := EncodeAll(scheduled.value.windows);
    }

    method EncodeAll(windows: seq<AudioFrame<Bits32>>) returns (r: Result<seq<EncodedEvent>, EncodeError>)
      modifies `sequence
      ensures EncodeWindows(old(sequence), windows) == Encoded(sequence, r)
    {
      var events: seq<EncodedEvent> := [];
      ghost var whole := EncodeWindows(sequence, windows);
      assert Following([], whole) == whole by {
        assert whole.result.Ok? ==> [] + whole.result.value == whole.result.value;
      }
      for i := 0 to |windows|
        invariant whole == Following(events, EncodeWindows(sequence, windows[i..]))
      {
        assert windows[i..][0] == windows[i] && windows[i..][1..] == windows[i + 1..];
        var current := sequence;
        sequence :- CheckedAdd(sequence, 1, SequenceOverflow);
        var bytes :- WriteWaveformFrame(current, windows[i]);
        ghost var later := EncodeWindows(sequence, windows[i + 1..]).result;
        if later.Ok? {
          Associative(events, [Binary(bytes)], later.value);
        }
        events := events + [Binary(bytes)];
      }
      assert events + [] == events;
      return Ok(events);
    }
  }

  function Following(events: seq<EncodedEvent>, later: Encoded): Encoded {
    match later.result
    case Ok(more) => later.(result := Ok(events + more))
    case Err(_) => later
  }
}
