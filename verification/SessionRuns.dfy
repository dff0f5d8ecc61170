/** What a consumer receives of a whole session, whatever events the encoder is given. */
module SessionRuns {
  import opened Base
  import opened Pipeline
  import opened Protocol
  import opened Signal
  import opened Scheduling
  import opened SchedulingRuns

  // ----- a session -----

  /** The encoder after these events, failed ones included. */
  function EncoderAfter(s: SessionFacts, events: seq<StreamEvent>): (r: SessionFacts)
    requires s.scheduler.Sound()
    ensures r.scheduler.Sound()
  {
    if events == [] then s
    else
      var before, last := EncoderAfter(s, events[..|events| - 1]), events[|events| - 1];
      if last.EventWaveform? then
        PushKeepsSound(DEFAULT_CONFIG, before.scheduler, last.streamId, [last.frame]);
        Encode(before, last).facts
      else Encode(before, last).facts
  }

  /** Everything sent for these events; a failed event sends nothing. */
  function Sent(s: SessionFacts, events: seq<StreamEvent>): seq<EncodedEvent>
    requires s.scheduler.Sound()
  {
    if events == [] then []
    else
      var before, last := events[..|events| - 1], events[|events| - 1];
      match Encode(EncoderAfter(s, before), last).result
      case Ok(messages) => Sent(s, before) + messages
      case Err(_) => Sent(s, before)
  }

  // ----- text messages -----

  predicate IsLifecycle(event: StreamEvent) {
    event.EventStarted? || event.EventError? || event.EventEnded?
  }

  function LifecycleOf(events: seq<StreamEvent>): seq<StreamEvent> {
    if events == [] then []
    else
      LifecycleOf(events[..|events| - 1])
      + if IsLifecycle(events[|events| - 1]) then [events[|events| - 1]] else []
  }

  function TextsOf(messages: seq<EncodedEvent>): seq<StreamEvent> {
    if messages == [] then []
    else (if messages[0].Text? then [messages[0].event] else []) + TextsOf(messages[1..])
  }

  function BinariesOf(messages: seq<EncodedEvent>): seq<EncodedEvent> {
    if messages == [] then []
    else (if messages[0].Binary? then [messages[0]] else []) + BinariesOf(messages[1..])
  }

  lemma {:induction false} TextsAppend(a: seq<EncodedEvent>, b: seq<EncodedEvent>)
    ensures TextsOf(a + b) == TextsOf(a) + TextsOf(b)
  {
    if a == [] {
      assert a + b == b;
    } else {
      TextsAppend(a[1..], b);
      assert (a + b)[1..] == a[1..] + b;
      Associative(if a[0].Text? then [a[0].event] else [], TextsOf(a[1..]), TextsOf(b));
    }
  }

  lemma {:induction false} BinariesAppend(a: seq<EncodedEvent>, b: seq<EncodedEvent>)
    ensures BinariesOf(a + b) == BinariesOf(a) + BinariesOf(b)
  {
    if a == [] {
      assert a + b == b;
    } else {
      BinariesAppend(a[1..], b);
      assert (a + b)[1..] == a[1..] + b;
      Associative(if a[0].Binary? then [a[0]] else [], BinariesOf(a[1..]), BinariesOf(b));
    }
  }

  predicate AllBinary(messages: seq<EncodedEvent>) {
    forall k :: 0 <= k < |messages| ==> messages[k].Binary?
  }

  lemma {:induction false} SplitBinary(messages: seq<EncodedEvent>)
    requires AllBinary(messages)
    ensures TextsOf(messages) == [] && BinariesOf(messages) == messages
  {
    if messages != [] {
      SplitBinary(messages[1..]);
    }
  }

  lemma WindowsAreBinary(sequence: u64, windows: seq<AudioFrame<Bits32>>)
    requires EncodeWindows(sequence, windows).result.Ok?
    ensures AllBinary(EncodeWindows(sequence, windows).result.value)
  {
    EncodedWindowsCarry(sequence, windows);
    var messages := EncodeWindows(sequence, windows).result.value;
    forall k | 0 <= k < |messages|
      ensures messages[k].Binary?
    {
      assert Carries(messages[k], sequence + k, windows[k]);
    }
  }

  lemma EventTexts(s: SessionFacts, event: StreamEvent)
    requires s.scheduler.Sound() && Encode(s, event).result.Ok?
    ensures TextsOf(Encode(s, event).result.value) == if IsLifecycle(event) then [event] else []
    ensures !event.EventWaveform? ==> BinariesOf(Encode(s, event).result.value) == []
  {
    if event.EventWaveform? {
      var pushed := Push(DEFAULT_CONFIG, s.scheduler, event.streamId, [event.frame]);
      WindowsAreBinary(s.sequence, pushed.result.value.windows);
      SplitBinary(Encode(s, event).result.value);
    }
  }

  /**
   At any point of any session, whatever failed, the text messages are exactly the started, error
   and ended events given so far: each once, in order, unchanged.
   */
  lemma {:induction false} TextsAreLifecycle(s: SessionFacts, events: seq<StreamEvent>)
    requires s.scheduler.Sound()
    ensures TextsOf(Sent(s, events)) == LifecycleOf(events)
  {
    if events != [] {
      var before, last := events[..|events| - 1], events[|events| - 1];
      TextsAreLifecycle(s, before);
      var encoded := Encode(EncoderAfter(s, before), last).result;
      if encoded.Ok? {
        EventTexts(EncoderAfter(s, before), last);
        TextsAppend(Sent(s, before), encoded.value);
      }
    }
  }

  // ----- binary messages -----

  /** The frames given, each a batch of its own stream. */
  function WaveformsOf(events: seq<StreamEvent>): seq<Batch<StreamId, Bits32>> {
    if events == [] then []
    else
      WaveformsOf(events[..|events| - 1])
      + if events[|events| - 1].EventWaveform? then [Batch(events[|events| - 1].streamId, [events[|events| - 1].frame])]
        else []
  }

  lemma {:induction false} PushedAfter(
    s: Facts<StreamId, Bits32>, batches: seq<Batch<StreamId, Bits32>>, last: Batch<StreamId, Bits32>)
    requires s.Sound()
    ensures FactsAfter(DEFAULT_CONFIG, s, batches).Sound()
    ensures FactsAfter(DEFAULT_CONFIG, s, batches + [last])
         == Push(DEFAULT_CONFIG, FactsAfter(DEFAULT_CONFIG, s, batches), last.id, last.frames).facts
    decreases |batches|
  {
    if batches == [] {
      assert (batches + [last])[1..] == [];
    } else {
      PushKeepsSound(DEFAULT_CONFIG, s, batches[0].id, batches[0].frames);
      PushedAfter(Push(DEFAULT_CONFIG, s, batches[0].id, batches[0].frames).facts, batches[1..], last);
      assert (batches + [last])[1..] == batches[1..] + [last];
    }
  }

  /** The scheduler sees the waveform events and nothing else. */
  lemma {:induction false} SchedulerSeesWaveforms(s: SessionFacts, events: seq<StreamEvent>)
    requires s.scheduler.Sound()
    ensures EncoderAfter(s, events).scheduler == FactsAfter(DEFAULT_CONFIG, s.scheduler, WaveformsOf(events))
  {
    if events != [] {
      var before, last := events[..|events| - 1], events[|events| - 1];
      SchedulerSeesWaveforms(s, before);
      if last.EventWaveform? {
        PushedAfter(s.scheduler, WaveformsOf(before), Batch(last.streamId, [last.frame]));
      } else {
        assert WaveformsOf(events) == WaveformsOf(before);
      }
    }
  }

  /** The windows the scheduler emits for these batches. */
  function WindowsOf(s: Facts<StreamId, Bits32>, batches: seq<Batch<StreamId, Bits32>>): seq<AudioFrame<Bits32>>
    requires s.Sound()
  {
    if batches == [] then []
    else
      var before, last := batches[..|batches| - 1], batches[|batches| - 1];
      PushedAfter(s, before, last);
      WindowsOf(s, before) + Emitted(DEFAULT_CONFIG, FactsAfter(DEFAULT_CONFIG, s, before), last)
  }

  /** No event has failed so far. */
  predicate AllEncoded(s: SessionFacts, events: seq<StreamEvent>)
    requires s.scheduler.Sound()
  {
    events == [] ||
    (&& AllEncoded(s, events[..|events| - 1])
     && Encode(EncoderAfter(s, events[..|events| - 1]), events[|events| - 1]).result.Ok?)
  }

  lemma CarryMore(
    m1: seq<EncodedEvent>, w1: seq<AudioFrame<Bits32>>, m2: seq<EncodedEvent>, w2: seq<AudioFrame<Bits32>>,
    first: nat, middle: nat)
    requires MessagesCarry(m1, w1, first) && MessagesCarry(m2, w2, middle) && middle == first + |w1|
    ensures MessagesCarry(m1 + m2, w1 + w2, first)
  {
    var m, w := m1 + m2, w1 + w2;
    forall k | 0 <= k < |w|
      ensures Carries(m[k], first + k, w[k])
    {
      if k < |w1| {
        assert Carries(m1[k], first + k, w1[k]);
      } else {
        assert Carries(m2[k - |w1|], middle + (k - |w1|), w2[k - |w1|]);
      }
    }
  }

  /**
   While no event fails, the binary messages carry exactly the windows the scheduler emits for the
   waveform events, in order, under consecutive sequence numbers; no other event spends a number.
   */
  lemma {:induction false} BinariesCarryWindows(s: SessionFacts, events: seq<StreamEvent>)
    requires s.scheduler.Sound() && AllEncoded(s, events)
    ensures var windows := WindowsOf(s.scheduler, WaveformsOf(events));
            && MessagesCarry(BinariesOf(Sent(s, events)), windows, s.sequence)
            && EncoderAfter(s, events).sequence == s.sequence + |windows|
  {
    if events != [] {
      var before, last := events[..|events| - 1], events[|events| - 1];
      var s', messages := EncoderAfter(s, before), Encode(EncoderAfter(s, before), last).result.value;
      BinariesCarryWindows(s, before);
      BinariesAppend(Sent(s, before), messages);
      if last.EventWaveform? {
        SchedulerSeesWaveforms(s, before);
        WindowsMore(s.scheduler, WaveformsOf(before), Batch(last.streamId, [last.frame]));
        WaveformCarries(s', last.streamId, last.frame, s.sequence, WindowsOf(s.scheduler, WaveformsOf(before)),
                        BinariesOf(Sent(s, before)));
      } else {
        EventTexts(s', last);
        assert WaveformsOf(events) == WaveformsOf(before);
        assert BinariesOf(Sent(s, events)) == BinariesOf(Sent(s, before));
      }
    }
  }

  lemma WindowsMore(
    s: Facts<StreamId, Bits32>, batches: seq<Batch<StreamId, Bits32>>, last: Batch<StreamId, Bits32>)
    requires s.Sound()
    ensures FactsAfter(DEFAULT_CONFIG, s, batches).Sound()
    ensures WindowsOf(s, batches + [last])
         == WindowsOf(s, batches) + Emitted(DEFAULT_CONFIG, FactsAfter(DEFAULT_CONFIG, s, batches), last)
  {
    PushedAfter(s, batches, last);
    assert (batches + [last])[..|batches|] == batches;
  }

  /** One waveform that is encoded becomes one message for each window it completes. */
  lemma EmittedCarry(s: SessionFacts, id: StreamId, frame: AudioFrame<Bits32>)
    requires s.scheduler.Sound() && Encode(s, EventWaveform(id, frame)).result.Ok?
    ensures var encoded := Encode(s, EventWaveform(id, frame));
            var emitted := Emitted(DEFAULT_CONFIG, s.scheduler, Batch(id, [frame]));
            && MessagesCarry(encoded.result.value, emitted, s.sequence)
            && encoded.facts.sequence == s.sequence + |emitted|
            && BinariesOf(encoded.result.value) == encoded.result.value
  {
    var emitted := Emitted(DEFAULT_CONFIG, s.scheduler, Batch(id, [frame]));
    EncodedWindowsCarry(s.sequence, emitted);
    WindowsAreBinary(s.sequence, emitted);
    SplitBinary(Encode(s, EventWaveform(id, frame)).result.value);
  }

  lemma WaveformCarries(
    s: SessionFacts, id: StreamId, frame: AudioFrame<Bits32>, first: nat, windows: seq<AudioFrame<Bits32>>,
    sent: seq<EncodedEvent>)
    requires s.scheduler.Sound() && s.sequence == first + |windows| && MessagesCarry(sent, windows, first)
    requires Encode(s, EventWaveform(id, frame)).result.Ok?
    ensures var encoded := Encode(s, EventWaveform(id, frame));
            var more := windows + Emitted(DEFAULT_CONFIG, s.scheduler, Batch(id, [frame]));
            && MessagesCarry(sent + BinariesOf(encoded.result.value), more, first)
            && encoded.facts.sequence == first + |more|
  {
    EmittedCarry(s, id, frame);
    CarryMore(sent, windows, Encode(s, EventWaveform(id, frame)).result.value,
              Emitted(DEFAULT_CONFIG, s.scheduler, Batch(id, [frame])), first, s.sequence);
  }

  // ----- sequence numbers -----

  /** The binary messages can be read, and their numbers only ascend, from `first` to below `next`. */
  predicate Ascend(messages: seq<EncodedEvent>, first: nat, next: nat) {
    if messages == [] then first <= next
    else
      var last := messages[|messages| - 1];
      if last.Text? then Ascend(messages[..|messages| - 1], first, next)
      else
        var parsed := ParseWaveform(last.bytes);
        parsed.Ok? && parsed.value.sequence < next && Ascend(messages[..|messages| - 1], first, parsed.value.sequence)
  }

  lemma {:induction false} AscendLater(messages: seq<EncodedEvent>, first: nat, next: nat, later: nat)
    requires Ascend(messages, first, next) && next <= later
    ensures Ascend(messages, first, later)
  {
    if messages != [] {
      if messages[|messages| - 1].Text? {
        AscendLater(messages[..|messages| - 1], first, next, later);
      }
    }
  }

  lemma AscendOne(sent: seq<EncodedEvent>, message: EncodedEvent, window: AudioFrame<Bits32>, first: nat, next: nat)
    requires Ascend(sent, first, next) && Carries(message, next, window)
    ensures Ascend(sent + [message], first, next + 1)
  {
    ParseUndoesEncode(next, window);
    assert (sent + [message])[..|sent|] == sent;
  }

  lemma CarryAt(messages: seq<EncodedEvent>, windows: seq<AudioFrame<Bits32>>, first: nat, k: nat, number: nat)
    requires MessagesCarry(messages, windows, first) && k < |windows| && number == first + k
    ensures Carries(messages[k], number, windows[k])
  {
    assert Carries(messages[k], first + k, windows[k]);
  }

  lemma AscendAt(
    sent: seq<EncodedEvent>, messages: seq<EncodedEvent>, windows: seq<AudioFrame<Bits32>>, first: nat, next: nat, k: nat,
    number: nat)
    requires MessagesCarry(messages, windows, next) && k < |windows| && number == next + k
    requires Ascend(sent, first, number)
    ensures Ascend(sent + [messages[k]], first, number + 1)
  {
    CarryAt(messages, windows, next, k, number);
    AscendOne(sent, messages[k], windows[k], first, number);
  }

  lemma PrefixGrows<T>(a: seq<T>, b: seq<T>, n: nat)
    requires 0 < n <= |b|
    ensures a + b[..n] == (a + b[..n - 1]) + [b[n - 1]]
  {
  }

  lemma {:induction false} AscendOn(
    sent: seq<EncodedEvent>, messages: seq<EncodedEvent>, windows: seq<AudioFrame<Bits32>>, first: nat, next: nat, n: nat)
    requires Ascend(sent, first, next) && MessagesCarry(messages, windows, next) && n <= |messages|
    ensures Ascend(sent + messages[..n], first, next + n)
    decreases n
  {
    if n == 0 {
      assert sent + messages[..0] == sent;
    } else {
      var k := n - 1;
      AscendOn(sent, messages, windows, first, next, k);
      AscendAt(sent + messages[..k], messages, windows, first, next, k, next + k);
      PrefixGrows(sent, messages, n);
    }
  }

  lemma AscendAll(
    sent: seq<EncodedEvent>, messages: seq<EncodedEvent>, windows: seq<AudioFrame<Bits32>>, first: nat, next: nat, after: nat)
    requires Ascend(sent, first, next) && MessagesCarry(messages, windows, next) && after == next + |windows|
    ensures Ascend(sent + messages, first, after)
  {
    AscendOn(sent, messages, windows, first, next, |windows|);
    assert messages[..|windows|] == messages;
  }

  lemma WaveformAscends(s: SessionFacts, id: StreamId, frame: AudioFrame<Bits32>, sent: seq<EncodedEvent>, first: nat)
    requires s.scheduler.Sound() && Ascend(sent, first, s.sequence)
    requires Encode(s, EventWaveform(id, frame)).result.Ok?
    ensures var encoded := Encode(s, EventWaveform(id, frame));
            Ascend(sent + encoded.result.value, first, encoded.facts.sequence)
  {
    var encoded := Encode(s, EventWaveform(id, frame));
    EmittedCarry(s, id, frame);
    AscendAll(sent, encoded.result.value, Emitted(DEFAULT_CONFIG, s.scheduler, Batch(id, [frame])), first, s.sequence,
              encoded.facts.sequence);
  }

  /** Whatever fails, no two messages of a session carry the same sequence number, and later ones carry higher ones. */
  lemma {:induction false} NumbersAscend(s: SessionFacts, events: seq<StreamEvent>)
    requires s.scheduler.Sound()
    ensures Ascend(Sent(s, events), s.sequence, EncoderAfter(s, events).sequence)
  {
    if events != [] {
      var before, last := events[..|events| - 1], events[|events| - 1];
      var s', sent := EncoderAfter(s, before), Sent(s, before);
      NumbersAscend(s, before);
      NumbersAscendOn(s', last, sent, s.sequence);
    }
  }

  lemma NumbersAscendOn(s: SessionFacts, event: StreamEvent, sent: seq<EncodedEvent>, first: nat)
    requires s.scheduler.Sound() && Ascend(sent, first, s.sequence)
    ensures var encoded := Encode(s, event);
            Ascend(if encoded.result.Ok? then sent + encoded.result.value else sent, first, encoded.facts.sequence)
  {
    SequenceGrows(s, event);
    if Encode(s, event).result.Err? {
      AscendLater(sent, first, s.sequence, Encode(s, event).facts.sequence);
    } else if event.EventWaveform? {
      WaveformAscends(s, event.streamId, event.frame, sent, first);
    } else {
      TextAscends(s, event, sent, first);
    }
  }

  lemma TextAscends(s: SessionFacts, event: StreamEvent, sent: seq<EncodedEvent>, first: nat)
    requires s.scheduler.Sound() && !event.EventWaveform? && Ascend(sent, first, s.sequence)
    ensures Encode(s, event).result.Ok? && Ascend(sent + Encode(s, event).result.value, first, s.sequence)
  {
    var messages := Encode(s, event).result.value;
    assert messages == [] ==> sent + messages == sent;
    assert messages != [] ==> (sent + messages)[..|sent + messages| - 1] == sent;
  }

  lemma SequenceGrows(s: SessionFacts, event: StreamEvent)
    requires s.scheduler.Sound()
    ensures s.sequence <= Encode(s, event).facts.sequence
  {
    if event.EventWaveform? {
      var pushed := Push(DEFAULT_CONFIG, s.scheduler, event.streamId, [event.frame]);
      if pushed.result.Ok? {
        WindowsSpend(s.sequence, pushed.result.value.windows);
      }
    }
  }

  lemma {:induction false} WindowsSpend(sequence: u64, windows: seq<AudioFrame<Bits32>>)
    ensures sequence <= EncodeWindows(sequence, windows).sequence <= sequence + |windows|
    decreases |windows|
  {
    if windows != [] && sequence < U64_MAX {
      WindowsSpend(sequence + 1, windows[1..]);
    }
  }
}
