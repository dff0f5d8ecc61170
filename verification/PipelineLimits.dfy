/** Where the pipeline's timeline ends: which runs never meet its end, and one that does. */
module PipelineLimits {
  import opened Base
  import opened Capture
  import opened CaptureRuns
  import opened Pipeline
  import opened PipelineRuns
  import opened Protocol
  import opened Rounding
  import opened Signal
  import opened Scheduling

  // ----- short runs -----

  lemma {:induction false} PrefixFrames(packets: seq<CapturePacket>, k: nat)
    requires k < |packets|
    ensures AllFrames(packets[..k + 1]) == AllFrames(packets[..k]) + packets[k].frameCount
    ensures AllFrames(packets[..k + 1]) <= AllFrames(packets)
    decreases |packets|
  {
    assert packets[..k + 1][..k] == packets[..k];
    if k + 1 == |packets| {
      assert packets[..k + 1] == packets;
    } else {
      var before := packets[..|packets| - 1];
      assert before[..k + 1] == packets[..k + 1] && before[..k] == packets[..k];
      PrefixFrames(before, k);
    }
  }

  lemma EarlyFits(rate: PositiveU32, window: PositiveU32, begin: nat, more: nat)
    requires (begin + more) * NANOS_PER_SECOND <= U64_MAX
    ensures FitsTimeline(rate, window, begin, more)
  {
    RoundingLosesAtMostOne(begin, more, rate);
    NanosShrink(begin + more, rate);
  }

  /** While frame numbers times 10^9 fit a `u64`, the timeline never stops a run. */
  lemma EarlyRunsIff(format: CaptureFormat, id: StreamId, packets: seq<CapturePacket>)
    requires AllValid(packets) && Window(format).Ok?
    requires AllFrames(packets) * NANOS_PER_SECOND <= U64_MAX
    ensures var window := Window(format).value;
            Run(format, id, packets).Ok? <==>
            IsCapture(format, packets) && AllSmall(packets, window) && HasRoom(format, window, AllFrames(packets))
  {
    RunsIff(format, id, packets);
    forall k | 0 <= k < |packets|
      ensures FitsTimeline(format.sampleRate, Window(format).value, AllFrames(packets[..k]), packets[k].frameCount)
    {
      PrefixFrames(packets, k);
      EarlyFits(format.sampleRate, Window(format).value, AllFrames(packets[..k]), packets[k].frameCount);
    }
  }

  /** A first silent packet of up to eight windows always goes through, whatever its buffer holds. */
  lemma SilenceGoesThrough(format: CaptureFormat, id: StreamId, packet: CapturePacket)
    requires Window(format).Ok? && RoomForOne(format, Window(format).value)
    requires packet.Valid() && packet.flags.silent && !packet.flags.timestampError
    requires 0 < packet.frameCount <= DEFAULT_MAX_WINDOWS * Window(format).value
    requires packet.byteLen == packet.frameCount * format.BytesPerFrame()
    requires packet.devicePosition + packet.frameCount <= U64_MAX
    ensures Run(format, id, [packet]).Ok?
  {
    assert [packet][..0] == [];
    assert NanosOf(0, format.sampleRate) == 0 by {
      QuotientIs(0, format.sampleRate, 0, 0);
    }
    assert AllFrames([packet]) == packet.frameCount;
    EarlyRunsIff(format, id, [packet]);
  }

  // ----- long runs -----

  lemma {:induction false} PacketAt(packets: seq<CapturePacket>, m: nat) returns (k: nat)
    requires m < AllFrames(packets)
    ensures k < |packets| && AllFrames(packets[..k]) <= m < AllFrames(packets[..k]) + packets[k].frameCount
    decreases |packets|
  {
    var before := packets[..|packets| - 1];
    if m < AllFrames(before) {
      k := PacketAt(before, m);
      assert before[..k] == packets[..k];
    } else {
      k := |packets| - 1;
    }
  }

  /** A run only gets past a window that begins late if a packet begins there too. */
  lemma LateWindowsBeginPackets(format: CaptureFormat, id: StreamId, packets: seq<CapturePacket>, m: nat) returns (k: nat)
    requires AllValid(packets) && Window(format).Ok? && Run(format, id, packets).Ok?
    requires m < AllFrames(packets) && m % Window(format).value == 0 && m * NANOS_PER_SECOND > U64_MAX
    ensures k < |packets| && AllFrames(packets[..k]) == m
  {
    RunsIff(format, id, packets);
    k := LateBeginsPacket(format, Window(format).value, packets, m);
  }

  lemma {:induction false} LateBeginsPacket(
    format: CaptureFormat, window: PositiveU32, packets: seq<CapturePacket>, m: nat) returns (k: nat)
    requires AllFit(format, window, packets)
    requires m < AllFrames(packets) && m % window == 0 && m * NANOS_PER_SECOND > U64_MAX
    ensures k < |packets| && AllFrames(packets[..k]) == m
  {
    k := PacketAt(packets, m);
    FitsCutsNone(format.sampleRate, window, AllFrames(packets[..k]), packets[k].frameCount, m);
  }

  lemma FitsCutsNone(rate: PositiveU32, window: PositiveU32, begin: nat, more: nat, m: nat)
    requires FitsTimeline(rate, window, begin, more)
    ensures !IsLate(window, begin, begin + more, m)
  {
  }

  // ----- ten milliseconds at a time -----

  const STUDIO := CaptureFormat(48_000, true)

  /** The frames of a packet of 10 ms, and how many of them go through. */
  const TEN_MS: nat := 480
  const LAST_PACKETS: nat := 38_430_723

  function SilentPacket(k: nat): CapturePacket
    requires k <= 1_000_000_000
  {
    CapturePacket(seq(8 * TEN_MS, _ => 0), 8 * TEN_MS, TEN_MS, k * TEN_MS, k * 100_000, PacketFlags(false, true, false))
  }

  function Silence(n: nat): (packets: seq<CapturePacket>)
    requires n <= 1_000_000_000
    ensures |packets| == n && AllValid(packets)
  {
    seq(n, k requires 0 <= k < n => SilentPacket(k))
  }

  lemma {:induction false} SilenceFrames(n: nat, k: nat)
    requires k <= n <= 1_000_000_000
    ensures AllFrames(Silence(n)[..k]) == k * TEN_MS
    decreases k
  {
    if k > 0 {
      SilenceFrames(n, k - 1);
      assert Silence(n)[..k][..k - 1] == Silence(n)[..k - 1];
    }
  }

  lemma SilenceIsCapture(n: nat)
    requires n <= 1_000_000_000
    ensures IsCapture(STUDIO, Silence(n))
  {
    forall k | 0 <= k < n
      ensures TimedIn(STUDIO, AllFrames(Silence(n)[..k]))
    {
      SilenceFrames(n, k);
    }
  }

  lemma StudioWindow()
    ensures Window(STUDIO) == Ok(1600)
    ensures RoomForOne(STUDIO, 1600)
  {
  }

  /** The first late window, 18,446,745,600, begins between two packets, and the next inside packet `LAST_PACKETS`. */
  lemma OnlyTwoLateWindows(k: nat, m: nat)
    requires k < LAST_PACKETS
    ensures !IsLate(1600, k * TEN_MS, (k + 1) * TEN_MS, m)
  {
    if k * TEN_MS < m < (k + 1) * TEN_MS && m * NANOS_PER_SECOND > U64_MAX {
      assert 18_446_744_073 < m < 18_446_747_200;
      Euclid(m, 1600);
    }
  }

  lemma SilenceFitsIff(k: nat)
    requires k <= LAST_PACKETS
    ensures FitsTimeline(48_000, 1600, k * TEN_MS, TEN_MS) <==> k < LAST_PACKETS
  {
    var begin, end := k * TEN_MS, (k + 1) * TEN_MS;
    if k == LAST_PACKETS {
      assert IsLate(1600, begin, end, 18_446_747_200);
    } else {
      forall m: nat
        ensures !IsLate(1600, begin, end, m)
      {
        OnlyTwoLateWindows(k, m);
      }
    }
  }

  /**
   48 kHz stereo silence in packets of 10 ms: exactly the first `LAST_PACKETS` go through, 384,307
   seconds or about 4.45 days; the builder would take more.
   */
  lemma SilenceRunsIff(id: StreamId, n: nat)
    requires n <= 1_000_000_000
    ensures Run(STUDIO, id, Silence(n)).Ok? <==> n <= LAST_PACKETS
    ensures BuilderAfter(STUDIO, Silence(n)).Ok?
  {
    var packets := Silence(n);
    StudioWindow();
    SilenceIsCapture(n);
    BuildsIff(STUDIO, packets);
    RunsIff(STUDIO, id, packets);
    forall k | 0 <= k < n
      ensures AllFrames(packets[..k]) == k * TEN_MS && packets[k].frameCount == TEN_MS
    {
      SilenceFrames(n, k);
    }
    if n <= LAST_PACKETS {
      forall k | 0 <= k < n
        ensures FitsTimeline(48_000, 1600, AllFrames(packets[..k]), packets[k].frameCount)
      {
        SilenceFitsIff(k);
      }
      assert Bounded(STUDIO, 1600, packets);
    } else {
      SilenceFitsIff(LAST_PACKETS);
      assert !FitsTimeline(48_000, 1600, AllFrames(packets[..LAST_PACKETS]), packets[LAST_PACKETS].frameCount);
    }
  }
}
