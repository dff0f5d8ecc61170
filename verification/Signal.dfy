/** Audio signal data (crates/resonance-core/src/signal.rs). Samples are 32-bit patterns; only finiteness is read. */
module Signal {
  import opened Base
  import opened Rounding

  type Bits32 = x: int | 0 <= x <= U32_MAX

  /** An `f32` is finite unless its eight exponent bits are all ones. */
  predicate IsFinite(bits: Bits32) {
    (bits / 0x80_0000) % 0x100 != 0xFF
  }

  /** So the bit patterns that stand for no number are the two ranges from infinity up, one for each sign. */
  lemma FiniteIff(bits: Bits32)
    ensures IsFinite(bits) <==> bits < 0x7F80_0000 || 0x8000_0000 <= bits < 0xFF80_0000
  {
    assert bits == 0x80_0000 * (bits / 0x80_0000) + bits % 0x80_0000;
    assert bits / 0x80_0000 == 0x100 * (bits / 0x80_0000 / 0x100) + (bits / 0x80_0000) % 0x100;
  }

  predicate AllFinite(samples: seq<Bits32>) {
    forall k :: 0 <= k < |samples| ==> IsFinite(samples[k])
  }

  type PositiveU16 = x: int | 1 <= x <= U16_MAX witness 1
  type PositiveU32 = x: int | 1 <= x <= U32_MAX witness 1

  datatype ChannelPosition =
    | Mono | FrontLeft | FrontRight | FrontCenter | LowFrequency | BackLeft | BackRight | FrontLeftOfCenter
    | FrontRightOfCenter | BackCenter | SideLeft | SideRight | TopCenter | TopFrontLeft | TopFrontCenter
    | TopFrontRight | TopBackLeft | TopBackCenter | TopBackRight

  datatype AnyLayout = Discrete(count: PositiveU16) | Positioned(positions: seq<ChannelPosition>)

  type ChannelLayout = l: AnyLayout | l.Positioned? ==> 1 <= |l.positions| <= U16_MAX witness Discrete(1)

  function ChannelCount(l: ChannelLayout): PositiveU16 {
    match l
    case Discrete(count) => count
    case Positioned(positions) => |positions|
  }

  datatype FrameTimestamp = FrameTimestamp(frameIndex: u64, streamTimeNs: u64)

  /** A batch of interleaved samples; the constructor guarantees whole, non-empty sample frames. */
  datatype AudioFrame<S> = AudioFrame(
    start: FrameTimestamp,
    frameCount: PositiveU32,
    sampleRate: PositiveU32,
    channels: ChannelLayout,
    samples: seq<S>)
  {
    predicate WellFormed() {
      |samples| == frameCount * ChannelCount(channels)
    }
  }

  datatype SignalDataError = EmptyFrame | IncompleteSampleFrame | NonFiniteValue(index: nat) | TooManyFrames

  /** `AudioFrame::new` on samples whose finiteness is already established. */
  function NewFrame<S>(start: FrameTimestamp, sampleRate: PositiveU32, channels: ChannelLayout, samples: seq<S>):
    (r: Result<AudioFrame<S>, SignalDataError>)
    ensures r.Ok? ==> r.value.WellFormed() && r.value.samples == samples
    ensures r == Err(EmptyFrame) <==> |samples| == 0
    ensures r == Err(IncompleteSampleFrame) <==> |samples| % ChannelCount(channels) > 0
    ensures r == Err(TooManyFrames) ==> |samples| > U32_MAX
    ensures r.Err? ==> !r.error.NonFiniteValue?
  {
    var count := ChannelCount(channels);
    if samples == [] then Err(EmptyFrame)
    else if |samples| % count != 0 then Err(IncompleteSampleFrame)
    else if |samples| / count > U32_MAX then Err(TooManyFrames)
    else
      WholeFrames(|samples|, count);
      Ok(AudioFrame(start, |samples| / count, sampleRate, channels, samples))
  }

  lemma WholeFrames(length: nat, count: PositiveU16)
    requires length % count == 0
    ensures length == (length / count) * count
    ensures length > 0 ==> length / count >= 1
  {
  }

  lemma FramesInverse(frames: nat, count: PositiveU16)
    ensures (frames * count) % count == 0 && (frames * count) / count == frames
  {
    var q, r := (frames * count) / count, (frames * count) % count;
    assert (frames - q) * count == r;
    StrictMultiple(frames - q, count);
  }

  /** Samples of whole frames always make a frame, with exactly that many sample frames. */
  lemma NewFrameOfWholeFrames<S>(
    start: FrameTimestamp, frames: PositiveU32, sampleRate: PositiveU32, channels: ChannelLayout, samples: seq<S>)
    requires |samples| == frames * ChannelCount(channels)
    ensures NewFrame(start, sampleRate, channels, samples)
         == Ok(AudioFrame(start, frames, sampleRate, channels, samples))
  {
    FramesInverse(frames, ChannelCount(channels));
  }

  function SamplesOf<S>(frames: seq<AudioFrame<S>>): seq<S> {
    if frames == [] then [] else frames[0].samples + SamplesOf(frames[1..])
  }

  lemma {:induction false} SamplesOfAppend<S>(a: seq<AudioFrame<S>>, b: seq<AudioFrame<S>>)
    ensures SamplesOf(a + b) == SamplesOf(a) + SamplesOf(b)
  {
    if a == [] {
      assert a + b == b;
      assert SamplesOf(a) + SamplesOf(b) == SamplesOf(b);
    } else {
      SamplesOfAppend(a[1..], b);
      assert (a + b)[1..] == a[1..] + b;
      Associative(a[0].samples, SamplesOf(a[1..]), SamplesOf(b));
    }
  }

  predicate AllOfSize<S>(frames: seq<AudioFrame<S>>, size: nat) {
    forall k :: 0 <= k < |frames| ==> |frames[k].samples| == size
  }

  /** Equal streams cut into pieces of one size have equal pieces and equal remainders. */
  lemma {:induction false} CuttingIsUnique<S>(
    a: seq<AudioFrame<S>>, restA: seq<S>, b: seq<AudioFrame<S>>, restB: seq<S>, size: nat)
    requires size > 0 && AllOfSize(a, size) && AllOfSize(b, size)
    requires |restA| < size && |restB| < size
    requires SamplesOf(a) + restA == SamplesOf(b) + restB
    ensures |a| == |b| && restA == restB
    ensures forall k :: 0 <= k < |a| ==> a[k].samples == b[k].samples
  {
    var stream := SamplesOf(a) + restA;
    FirstPiece(a, restA, size);
    FirstPiece(b, restB, size);
    if a != [] && b != [] {
      assert stream[size..] == SamplesOf(a[1..]) + restA == SamplesOf(b[1..]) + restB;
      CuttingIsUnique(a[1..], restA, b[1..], restB, size);
      forall k | 0 <= k < |a|
        ensures a[k].samples == b[k].samples
      {
        if k > 0 {
          assert a[k] == a[1..][k - 1] && b[k] == b[1..][k - 1];
        } else {
          assert stream[..size] == a[0].samples == b[0].samples;
        }
      }
    }
  }

  lemma FirstPiece<S>(a: seq<AudioFrame<S>>, rest: seq<S>, size: nat)
    requires AllOfSize(a, size)
    ensures a == [] ==> SamplesOf(a) + rest == rest
    ensures a != [] ==> SamplesOf(a) + rest == a[0].samples + (SamplesOf(a[1..]) + rest) && |SamplesOf(a)| >= size
  {
    if a != [] {
      var first, later := a[0].samples, SamplesOf(a[1..]);
      assert SamplesOf(a) == first + later;
      Associative(first, later, rest);
    }
  }
}
