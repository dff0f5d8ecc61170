/** What the consumer is told of the end, and that it is how the capture ended. */
module HandoffEndings {
  import opened Base
  import opened Handoff
  import opened HandoffRuns
  import opened Owner
  import opened RecoveryTypes
  import S = SupervisorStages

  /** An end someone asked for. */
  predicate IsAskedFor(end: CaptureEnd) {
    end.StopRequested? || end.DurationElapsed?
  }

  /** The terminal event names each end that has a name of its own, and calls every other one a failure. */
  predicate NamesEnd(end: CaptureEnd, last: Event) {
    && last.StreamEnded?
    && (last.reason == S.ProviderShutdown <==> end == StopRequested)
    && (last.reason == S.ConsumerCancelled <==> end == DurationElapsed)
    && (last.reason == S.EndedSourceReconfigured <==> end == EndSourceReconfigured)
    && (last.reason == S.SourceEnded <==> end == EndSourceUnavailable)
  }

  /** The error names a lost source, an exhausted handoff and an internal failure; the rest is an interruption. */
  predicate NamesError(end: CaptureEnd, error: Event) {
    && error.StreamError?
    && (error.kind == KindSourceUnavailable <==> end == EndSourceUnavailable)
    && (error.kind == KindResourceExhausted <==> end == BoundedHandoffExhausted)
    && (error.kind == KindInternal <==> end == EndFailed)
    && error.kind in {KindSourceUnavailable, KindResourceExhausted, KindInternal, KindStreamInterrupted}
    && (error.hint == WaitForSource <==> end == EndSourceUnavailable)
    && (error.hint == RetryNow <==> end == EndSourceReconfigured || end == DataDiscontinuity)
    && error.hint in {WaitForSource, RetryNow, RetryLater}
    && (error.scope == OfSource <==> end == EndSourceUnavailable)
  }

  /** What a consumer can read from the last events about how the capture ended. */
  predicate Classifies(end: CaptureEnd, told: seq<Event>) {
    if IsAskedFor(end) then |told| == 1 && NamesEnd(end, told[0])
    else |told| == 2 && NamesError(end, told[0]) && NamesEnd(end, told[1])
  }

  lemma EndIsClassified(end: CaptureEnd)
    ensures Classifies(end, EndEvents(end))
  {
  }

  /** A failure is told with its own kind and hint, as a failure of the stream. */
  predicate TellsFailure(failure: (ErrorKind, RetryHint), told: seq<Event>) {
    told == [StreamError(failure.0, failure.1, OfStream), StreamEnded(S.EndedFailed)]
  }

  // ----- how the capture ended -----

  /** The last message is the one this state of the capture thread sends. */
  predicate Sends(c: Capturing, message: Message) {
    match message
    case MessageEnded(end) => c == Ending(end)
    case MessageFailed(failure) => c == Failing(failure)
    case _ => true
  }

  ghost predicate WasSent(states: seq<State>, i: nat, message: Message)
    requires i < |states|
  {
    exists k :: 0 <= k <= i && Sends(states[k].capture, message)
  }

  lemma SentEarlier(states: seq<State>, i: nat, j: nat, message: Message)
    requires i <= j < |states| && WasSent(states, i, message)
    ensures WasSent(states, j, message)
  {
    var k :| 0 <= k <= i && Sends(states[k].capture, message);
    assert 0 <= k <= j && Sends(states[k].capture, message);
  }

  ghost predicate QueueWasSent(states: seq<State>, i: nat)
    requires i < |states|
  {
    forall k :: 0 <= k < |states[i].queue| ==> WasSent(states, i, states[i].queue[k])
  }

  /** A step leaves in the queue what was in it, and adds what the capture thread sends. */
  lemma QueueStep(s: State, step: Step, next: State, k: nat)
    requires Perform(s, step) == Some(next) && k < |next.queue|
    ensures next.queue[k] in s.queue || Sends(s.capture, next.queue[k])
  {
    if s.queue != [] && next.queue == s.queue[1..] {
      assert next.queue[k] == s.queue[k + 1];
    }
  }

  lemma {:induction false} QueueIsSent(states: seq<State>, steps: seq<Step>, i: nat)
    requires IsHandoff(states, steps) && i <= |steps|
    ensures QueueWasSent(states, i)
  {
    if i > 0 {
      QueueIsSent(states, steps, i - 1);
      forall k | 0 <= k < |states[i].queue|
        ensures WasSent(states, i, states[i].queue[k])
      {
        var message := states[i].queue[k];
        QueueStep(states[i - 1], steps[i - 1], states[i], k);
        if message in states[i - 1].queue {
          var j :| 0 <= j < |states[i - 1].queue| && states[i - 1].queue[j] == message;
          assert WasSent(states, i - 1, states[i - 1].queue[j]);
        } else {
          assert Sends(states[i - 1].capture, message);
        }
        SentEarlier(states, i - 1, i, message);
      }
    }
  }

  // ----- what is told -----

  /** The last events of a finished stream, and what they say. */
  ghost predicate TellsTheEnd(states: seq<State>, i: nat, told: seq<Event>)
    requires i < |states|
  {
    var report := states[i].report;
    || (exists k :: 0 <= k <= i && states[k].capture == Ending(report.end) && Classifies(report.end, told))
    || (exists k :: 0 <= k <= i && states[k].capture.Failing? && TellsFailure(states[k].capture.failure, told)
                    && report.end == EndFailed)
    || (exists k :: 0 <= k <= i && states[k].processing.Draining? && TellsFailure(INTERRUPTED, told)
                    && report.end == DataDiscontinuity)
  }

  lemma ToldEarlier(states: seq<State>, i: nat, told: seq<Event>)
    requires i + 1 < |states| && TellsTheEnd(states, i, told) && states[i + 1].report == states[i].report
    ensures TellsTheEnd(states, i + 1, told)
  {
  }

  /** Everything told after the announcement and the packets. */
  function LastWords(s: State): seq<Event>
    requires s.report.audioFrameCount <= |s.sent|
  {
    if |Streamed(s.report, s.sent)| <= |s.events| then s.events[|Streamed(s.report, s.sent)|..] else []
  }

  /** A stream that broke is reported as discontinuous before it is drained. */
  predicate DrainsBroken(s: State) {
    s.processing.Draining? ==> s.report.end == DataDiscontinuity
  }

  lemma {:induction false} AlwaysDrainsBroken(states: seq<State>, steps: seq<Step>, i: nat)
    requires IsHandoff(states, steps) && i <= |steps|
    ensures DrainsBroken(states[i])
  {
    if i > 0 {
      AlwaysDrainsBroken(states, steps, i - 1);
      DrainsBrokenStep(states[i - 1], steps[i - 1], states[i]);
    }
  }

  lemma DrainsBrokenStep(s: State, step: Step, next: State)
    requires DrainsBroken(s) && Perform(s, step) == Some(next)
    ensures DrainsBroken(next)
  {
  }

  lemma AppendedIsLast(s: State, next: State, told: seq<Event>)
    requires Counts(s.report, s.sent, 0) || Counts(s.report, s.sent, 1)
    requires s.events == Streamed(s.report, s.sent) && next.events == s.events + told
    requires next.sent == s.sent && next.report.audioFrameCount == s.report.audioFrameCount
    ensures LastWords(next) == told
  {
  }

  /** The step that ends the stream tells of the message it received. */
  lemma EndingStep(s: State, step: Step, next: State)
    requires Tells(s) && InOrder(s) && Perform(s, step) == Some(next)
    requires s.processing.Running? && next.processing == Returned(OkReport)
    ensures s.queue != [] && s.queue[0].IsFinal()
    ensures next.report.audioFrameCount <= |next.sent|
    ensures s.queue[0].MessageEnded? ==> Classifies(s.queue[0].end, LastWords(next)) && next.report.end == s.queue[0].end
    ensures s.queue[0].MessageFailed? ==> TellsFailure(s.queue[0].failure, LastWords(next)) && next.report.end == EndFailed
  {
    var message := s.queue[0];
    if message.MessageEnded? {
      EndIsClassified(message.end);
      AppendedIsLast(s, next, EndEvents(message.end));
    } else {
      AppendedIsLast(s, next, FailureEvents(message.failure));
    }
  }

  /** Draining tells nothing more. */
  lemma DrainedStep(s: State, step: Step, next: State)
    requires Tells(s) && DrainsBroken(s) && Perform(s, step) == Some(next)
    requires s.processing.Draining? && next.processing == Returned(OkReport)
    ensures next.report.audioFrameCount <= |next.sent|
    ensures TellsFailure(INTERRUPTED, LastWords(next)) && next.report.end == DataDiscontinuity
  {
    assert s.events + [] == s.events;
  }

  /** After the return nothing is told, sent or reported any more. */
  lemma ReturnedStep(s: State, step: Step, next: State)
    requires s.processing.Returned? && Perform(s, step) == Some(next)
    ensures next.events == s.events && next.sent == s.sent && next.report == s.report && next.processing == s.processing
  {
  }

  lemma OnlyTheseReturnOk(s: State, step: Step, next: State)
    requires InOrder(s) && Perform(s, step) == Some(next) && next.processing == Returned(OkReport)
    ensures s.processing.Running? || s.processing.Draining? || s.processing == Returned(OkReport)
  {
  }

  lemma FirstWasSent(states: seq<State>, steps: seq<Step>, i: nat) returns (k: nat)
    requires IsHandoff(states, steps) && i <= |steps| && states[i].queue != []
    ensures k <= i && Sends(states[k].capture, states[i].queue[0])
  {
    QueueIsSent(states, steps, i);
    assert WasSent(states, i, states[i].queue[0]);
    k :| 0 <= k <= i && Sends(states[k].capture, states[i].queue[0]);
  }

  lemma SentIsTold(states: seq<State>, i: nat, k: nat, message: Message, told: seq<Event>)
    requires k <= i < |states| && Sends(states[k].capture, message) && message.IsFinal()
    requires message.MessageEnded? ==> Classifies(message.end, told) && states[i].report.end == message.end
    requires message.MessageFailed? ==> TellsFailure(message.failure, told) && states[i].report.end == EndFailed
    ensures TellsTheEnd(states, i, told)
  {
  }

  /** The last message received tells what the capture thread sent. */
  lemma EndingIsTold(states: seq<State>, steps: seq<Step>, i: nat)
    requires IsHandoff(states, steps) && 0 < i <= |steps|
    requires states[i - 1].processing.Running? && states[i].processing == Returned(OkReport)
    requires Tells(states[i - 1]) && InOrder(states[i - 1])
    ensures states[i].report.audioFrameCount <= |states[i].sent|
    ensures TellsTheEnd(states, i, LastWords(states[i]))
  {
    assert Perform(states[i - 1], steps[i - 1]) == Some(states[i]);
    EndingStep(states[i - 1], steps[i - 1], states[i]);
    var k := FirstWasSent(states, steps, i - 1);
    SentIsTold(states, i, k, states[i - 1].queue[0], LastWords(states[i]));
  }

  lemma DrainedIsTold(states: seq<State>, steps: seq<Step>, i: nat)
    requires IsHandoff(states, steps) && 0 < i <= |steps|
    requires states[i - 1].processing.Draining? && states[i].processing == Returned(OkReport)
    requires Tells(states[i - 1])
    ensures states[i].report.audioFrameCount <= |states[i].sent|
    ensures TellsTheEnd(states, i, LastWords(states[i]))
  {
    assert Perform(states[i - 1], steps[i - 1]) == Some(states[i]);
    AlwaysDrainsBroken(states, steps, i - 1);
    DrainedStep(states[i - 1], steps[i - 1], states[i]);
  }

  /**
   However the threads interleave: when the run of an announced stream returns Ok, its last events
   and its report say how the capture thread ended, as it ended; or that the stream broke before.
   */
  lemma {:induction false} OkTellsTheEnd(states: seq<State>, steps: seq<Step>, i: nat)
    requires IsHandoff(states, steps) && i <= |steps| && states[i].processing == Returned(OkReport)
    ensures states[i].report.audioFrameCount <= |states[i].sent|
    ensures TellsTheEnd(states, i, LastWords(states[i]))
  {
    if i > 0 {
      var s, step := states[i - 1], steps[i - 1];
      assert Perform(s, step) == Some(states[i]);
      EveryInterleaving(states, steps, i - 1);
      OnlyTheseReturnOk(s, step, states[i]);
      if s.processing.Returned? {
        OkTellsTheEnd(states, steps, i - 1);
        ReturnedStep(s, step, states[i]);
        ToldEarlier(states, i - 1, LastWords(s));
      } else if s.processing.Draining? {
        DrainedIsTold(states, steps, i);
      } else {
        EndingIsTold(states, steps, i);
      }
    }
  }

  /**
   The capture thread gives up on its own only when the consumer is gone, which it calls a failure,
   or when the handoff is exhausted: every buffer is queued or being processed, or the queue is full.
   */
  lemma GivesUpIff(states: seq<State>, steps: seq<Step>, i: nat)
    requires IsHandoff(states, steps) && i < |steps| && (steps[i].TakeBuffer? || steps[i].SendPacket?)
    requires states[i + 1].capture.Ending?
    ensures var s, end := states[i], states[i + 1].capture.end;
            && (end == BoundedHandoffExhausted <==> !s.processing.Returned?)
            && (end == EndFailed <==> s.processing.Returned?)
            && (end == BoundedHandoffExhausted && steps[i].SendPacket? ==> |s.queue| == HANDOFF_CAPACITY)
            && (end == BoundedHandoffExhausted && steps[i].TakeBuffer? && ProcessingIsWorking(s) ==>
                  |BuffersOf(s.queue)| + HeldCount(s) == HANDOFF_CAPACITY)
  {
    assert Perform(states[i], steps[i]) == Some(states[i + 1]);
    QueueIsBounded(states, steps, i);
    if steps[i].TakeBuffer? && ProcessingIsWorking(states[i]) {
      BuffersAreConserved(states, steps, i, 0);
    }
  }

  /** The capture thread fails with the failure it met, or, its consumer gone, with an internal one. */
  predicate FailsWith(s: State, step: Step, failure: (ErrorKind, RetryHint)) {
    || step == FailStartup(failure) || step == FailBeforeLoop(failure)
    || (step.SendStarted? && s.processing.Returned? && failure == (KindInternal, RetryLater))
  }

  ghost predicate HasFailedWith(states: seq<State>, steps: seq<Step>, i: nat, failure: (ErrorKind, RetryHint))
    requires |states| == |steps| + 1 && i <= |steps|
  {
    exists k :: 0 <= k < i && FailsWith(states[k], steps[k], failure)
  }

  lemma {:induction false} FailingHasFailed(states: seq<State>, steps: seq<Step>, i: nat)
    requires IsHandoff(states, steps) && i <= |steps| && states[i].capture.Failing?
    ensures HasFailedWith(states, steps, i, states[i].capture.failure)
  {
    if i > 0 {
      assert Perform(states[i - 1], steps[i - 1]) == Some(states[i]);
      if states[i - 1].capture.Failing? {
        FailingHasFailed(states, steps, i - 1);
      } else {
        assert FailsWith(states[i - 1], steps[i - 1], states[i].capture.failure);
      }
    }
  }

  lemma StartupErrorIsReceived(s: State, step: Step, next: State)
    requires Perform(s, step) == Some(next) && !s.processing.Returned?
    requires next.processing.Returned? && next.processing.outcome.ErrStartup?
    ensures s.queue != [] && s.queue[0] == MessageFailed(next.processing.outcome.failure)
  {
  }

  /** A startup error is the failure the capture thread met, before or right after it announced the stream. */
  lemma {:induction false} StartupErrorIsTold(
    states: seq<State>, steps: seq<Step>, i: nat, failure: (ErrorKind, RetryHint))
    requires IsHandoff(states, steps) && i <= |steps| && states[i].processing == Returned(ErrStartup(failure))
    ensures HasFailedWith(states, steps, i, failure)
  {
    if i > 0 {
      var s, step := states[i - 1], steps[i - 1];
      assert Perform(s, step) == Some(states[i]);
      if s.processing.Returned? {
        ReturnedStep(s, step, states[i]);
        StartupErrorIsTold(states, steps, i - 1, failure);
      } else {
        StartupErrorIsReceived(s, step, states[i]);
        QueueIsSent(states, steps, i - 1);
        assert WasSent(states, i - 1, s.queue[0]);
        var k :| 0 <= k <= i - 1 && Sends(states[k].capture, s.queue[0]);
        FailingHasFailed(states, steps, k);
        var j :| 0 <= j < k && FailsWith(states[j], steps[j], failure);
        assert 0 <= j < i;
      }
    }
  }
}
