/** What any packets make of a builder: no refusal ever changes it, and exactly which captures it takes whole. */
module CaptureRuns {
  import opened Base
  import opened Capture
  import opened Rounding
  import opened SampleBytes
  import opened Signal

  // ----- what every push keeps -----

  /** A builder that has accepted nothing stands at zero; later the device is never behind the frames counted. */
  predicate Anchored(b: BuilderFacts) {
    && (b.nextDevicePosition.None? <==> b.previousQpc100ns.None?)
    && (b.nextDevicePosition.None? ==> b.nextFrameIndex == 0)
    && (b.nextDevicePosition.Some? ==> b.nextFrameIndex <= b.nextDevicePosition.value)
  }

  /** So the device position overflows before the frame index can, and a refusal changes nothing. */
  lemma AnchoredStep(format: CaptureFormat, b: BuilderFacts, packet: CapturePacket)
    requires packet.Valid() && Anchored(b)
    ensures var pushed := PushPacket(format, b, packet);
            && Anchored(pushed.facts)
            && (pushed.result.Err? ==> pushed.facts == b && pushed.result.error != FrameIndexOverflow)
  {
    PacketErrors(format, b, packet);
  }

  lemma PacketErrors(format: CaptureFormat, b: BuilderFacts, packet: CapturePacket)
    requires packet.Valid()
    ensures Build(format, b, packet) != Err(FrameIndexOverflow)
  {
    DecodeErrors(packet.Bytes());
  }

  lemma DecodeErrors(bytes: seq<u8>)
    ensures Decode(bytes) != Err(FrameIndexOverflow)
  {
    if |bytes| % 4 == 0 {
      DecodeFromErrors(bytes, 0);
    }
  }

  lemma {:induction false} DecodeFromErrors(bytes: seq<u8>, from: nat)
    requires |bytes| % 4 == 0 && 4 * from <= |bytes|
    ensures DecodeFrom(bytes, from) != Err(FrameIndexOverflow)
    decreases |bytes| - 4 * from
  {
    if 4 * from < |bytes| {
      DecodeFromErrors(bytes, from + 1);
    }
  }

  predicate AllValid(packets: seq<CapturePacket>) {
    forall k :: 0 <= k < |packets| ==> packets[k].Valid()
  }

  /** A new builder after any pushes, accepted or refused. */
  function AfterPushes(format: CaptureFormat, packets: seq<CapturePacket>): BuilderFacts
    requires AllValid(packets)
  {
    if packets == [] then INITIAL_BUILDER
    else PushPacket(format, AfterPushes(format, packets[..|packets| - 1]), packets[|packets| - 1]).facts
  }

  lemma {:induction false} PushesKeepAnchored(format: CaptureFormat, packets: seq<CapturePacket>)
    requires AllValid(packets)
    ensures Anchored(AfterPushes(format, packets))
  {
    if packets != [] {
      var before, last := packets[..|packets| - 1], packets[|packets| - 1];
      PushesKeepAnchored(format, before);
      AnchoredStep(format, AfterPushes(format, before), last);
    }
  }

  /** Every refusal, after any pushes, leaves the builder as it was; and none is for the frame index. */
  lemma RefusalKeepsBuilder(format: CaptureFormat, packets: seq<CapturePacket>, packet: CapturePacket)
    requires AllValid(packets) && packet.Valid()
    ensures var pushed := PushPacket(format, AfterPushes(format, packets), packet);
            pushed.result.Err? ==>
              pushed.facts == AfterPushes(format, packets) && pushed.result.error != FrameIndexOverflow
  {
    PushesKeepAnchored(format, packets);
    AnchoredStep(format, AfterPushes(format, packets), packet);
  }

  // ----- what the builder takes -----

  function AllFrames(packets: seq<CapturePacket>): nat {
    if packets == [] then 0 else AllFrames(packets[..|packets| - 1]) + packets[|packets| - 1].frameCount
  }

  /** A packet with usable data: whole finite sample frames, a valid timestamp, a device position in range. */
  predicate Usable(format: CaptureFormat, packet: CapturePacket)
    requires packet.Valid()
  {
    && packet.frameCount != 0 && !packet.flags.timestampError
    && packet.byteLen == packet.frameCount * format.BytesPerFrame()
    && (packet.flags.silent || forall i :: 0 <= i < packet.byteLen / 4 ==> IsFinite(WordAt(packet.Bytes(), i)))
    && packet.devicePosition + packet.frameCount <= U64_MAX
  }

  /** The device goes on without a gap, and its clock neither runs back nor too far. */
  predicate Succeeds(previous: CapturePacket, packet: CapturePacket) {
    && !packet.flags.dataDiscontinuity
    && packet.devicePosition == previous.devicePosition + previous.frameCount
    && 0 <= (packet.qpc100ns - previous.qpc100ns) * 100 <= U64_MAX
  }

  predicate SucceedsAt(packets: seq<CapturePacket>, k: nat)
    requires 1 <= k < |packets|
  {
    Succeeds(packets[k - 1], packets[k])
  }

  predicate TimedIn(format: CaptureFormat, before: nat) {
    NanosOf(before, format.sampleRate) <= U64_MAX
  }

  predicate AllUsable(format: CaptureFormat, packets: seq<CapturePacket>)
    requires AllValid(packets)
  {
    forall k :: 0 <= k < |packets| ==> Usable(format, packets[k])
  }

  predicate AllSucceed(packets: seq<CapturePacket>) {
    forall k :: 1 <= k < |packets| ==> SucceedsAt(packets, k)
  }

  predicate AllTimedIn(format: CaptureFormat, packets: seq<CapturePacket>) {
    forall k :: 0 <= k < |packets| ==> TimedIn(format, AllFrames(packets[..k]))
  }

  /** One uninterrupted capture, every packet beginning within the `u64` nanoseconds. */
  predicate IsCapture(format: CaptureFormat, packets: seq<CapturePacket>)
    requires AllValid(packets)
  {
    AllUsable(format, packets) && AllSucceed(packets) && AllTimedIn(format, packets)
  }

  /** The builder alone, over all packets. */
  function BuilderAfter(format: CaptureFormat, packets: seq<CapturePacket>): Result<BuilderFacts, CaptureError>
    requires AllValid(packets)
  {
    if packets == [] then Ok(INITIAL_BUILDER)
    else
      var before :- BuilderAfter(format, packets[..|packets| - 1]);
      var pushed := PushPacket(format, before, packets[|packets| - 1]);
      var _ :- pushed.result;
      Ok(pushed.facts)
  }

  /** What a builder stands at that took these packets. */
  predicate StandsAfter(b: BuilderFacts, packets: seq<CapturePacket>) {
    && Anchored(b) && b.nextFrameIndex == AllFrames(packets)
    && (if packets == [] then b.nextDevicePosition.None?
        else
          var last := packets[|packets| - 1];
          && b.nextDevicePosition.Some? && b.nextDevicePosition.value == last.devicePosition + last.frameCount
          && b.previousQpc100ns == Some(last.qpc100ns))
  }

  lemma UsableStep(format: CaptureFormat, before: seq<CapturePacket>, last: CapturePacket)
    requires AllValid(before) && last.Valid()
    ensures AllUsable(format, before + [last]) <==> AllUsable(format, before) && Usable(format, last)
  {
    var all := before + [last];
    assert all[|before|] == last;
    assert forall k :: 0 <= k < |before| ==> all[k] == before[k];
  }

  lemma SucceedStep(before: seq<CapturePacket>, last: CapturePacket)
    ensures AllSucceed(before + [last]) <==>
            AllSucceed(before) && (before != [] ==> Succeeds(before[|before| - 1], last))
  {
    var all := before + [last];
    forall k | 1 <= k < |before|
      ensures SucceedsAt(all, k) <==> SucceedsAt(before, k)
    {
    }
    if before != [] {
      assert SucceedsAt(all, |before|) <==> Succeeds(before[|before| - 1], last);
    }
  }

  lemma {:induction false} TimedStep(format: CaptureFormat, before: seq<CapturePacket>, last: CapturePacket)
    ensures AllTimedIn(format, before + [last]) <==> AllTimedIn(format, before) && TimedIn(format, AllFrames(before))
  {
    var all := before + [last];
    assert all[..|before|] == before;
    forall k | 0 <= k < |before|
      ensures all[..k] == before[..k]
    {
    }
  }

  lemma {:induction false} CaptureStep(format: CaptureFormat, before: seq<CapturePacket>, last: CapturePacket)
    requires AllValid(before) && last.Valid()
    ensures IsCapture(format, before + [last]) <==>
            && IsCapture(format, before) && Usable(format, last) && TimedIn(format, AllFrames(before))
            && (before != [] ==> Succeeds(before[|before| - 1], last))
  {
    UsableStep(format, before, last);
    SucceedStep(before, last);
    TimedStep(format, before, last);
  }

  lemma {:induction false} TakesNextIff(format: CaptureFormat, b: BuilderFacts, packets: seq<CapturePacket>, packet: CapturePacket)
    requires packet.Valid() && StandsAfter(b, packets)
    ensures PushPacket(format, b, packet).result.Ok? <==>
            && Usable(format, packet) && TimedIn(format, AllFrames(packets))
            && (packets != [] ==> Succeeds(packets[|packets| - 1], packet))
    ensures PushPacket(format, b, packet).result.Ok? ==>
              StandsAfter(PushPacket(format, b, packet).facts, packets + [packet])
  {
    AcceptedIff(format, b, packet);
    AnchoredStep(format, b, packet);
    assert (packets + [packet])[..|packets|] == packets;
  }

  /** The builder takes every packet exactly of one uninterrupted capture, and counts its frames. */
  lemma {:induction false} BuildsIff(format: CaptureFormat, packets: seq<CapturePacket>)
    requires AllValid(packets)
    ensures BuilderAfter(format, packets).Ok? <==> IsCapture(format, packets)
    ensures BuilderAfter(format, packets).Ok? ==> StandsAfter(BuilderAfter(format, packets).value, packets)
    decreases |packets|
  {
    if packets != [] {
      var before, last := packets[..|packets| - 1], packets[|packets| - 1];
      assert packets == before + [last];
      BuildsIff(format, before);
      CaptureStep(format, before, last);
      if BuilderAfter(format, before).Ok? {
        TakesNextIff(format, BuilderAfter(format, before).value, before, last);
      }
    }
  }

  // ----- what is told of each packet -----

  lemma {:induction false} CapturePrefix(format: CaptureFormat, packets: seq<CapturePacket>, k: nat)
    requires AllValid(packets) && IsCapture(format, packets) && k <= |packets|
    ensures IsCapture(format, packets[..k])
    decreases |packets|
  {
    if k < |packets| {
      var before, last := packets[..|packets| - 1], packets[|packets| - 1];
      assert packets == before + [last];
      CaptureStep(format, before, last);
      CapturePrefix(format, before, k);
      assert before[..k] == packets[..k];
    } else {
      assert packets[..k] == packets;
    }
  }

  function BuiltAt(format: CaptureFormat, packets: seq<CapturePacket>, k: nat): Result<BuiltFrame, CaptureError>
    requires AllValid(packets) && k < |packets|
  {
    var before :- BuilderAfter(format, packets[..k]);
    PushPacket(format, before, packets[k]).result
  }

  /**
   Of packet `k` of a capture the builder tells the clock time since the packet before it, none for
   the first, and a discontinuity only if the first packet was flagged with one.
   */
  lemma PacketIsTold(format: CaptureFormat, packets: seq<CapturePacket>, k: nat)
    requires AllValid(packets) && IsCapture(format, packets) && k < |packets|
    ensures var built := BuiltAt(format, packets, k);
            && built.Ok?
            && built.value.qpcDeltaNs == (if k == 0 then None else Some((packets[k].qpc100ns - packets[k - 1].qpc100ns) * 100))
            && (built.value.initialDiscontinuity <==> k == 0 && packets[0].flags.dataDiscontinuity)
  {
    var before := packets[..k];
    CapturePrefix(format, packets, k);
    CapturePrefix(format, packets, k + 1);
    assert packets[..k + 1] == before + [packets[k]];
    BuildsIff(format, before);
    BuildsIff(format, packets[..k + 1]);
    TakesNextIff(format, BuilderAfter(format, before).value, before, packets[k]);
    CaptureStep(format, before, packets[k]);
    if k > 0 {
      assert before[|before| - 1] == packets[k - 1];
    }
  }
}
