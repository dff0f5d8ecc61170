/**
 The four-buffer handoff between the capture thread and the processing thread
 (crates/resonance-agent/src/windows.rs), as interleaved steps of the two.

 The builder's verdict on a packet, device errors, end signals and clocks are choices of the step.
 */
module Handoff {
  import opened Base
  import opened Owner
  import opened RecoveryTypes
  import S = SupervisorStages

  const HANDOFF_CAPACITY: nat := 4

  type Buffer = nat

  datatype Message =
    | MessageStarted
    | MessagePacket(number: nat, frames: nat, buffer: Buffer)
    | MessageEnded(end: CaptureEnd)
    | MessageFailed(failure: (ErrorKind, RetryHint))
  {
    predicate IsFinal() {
      MessageEnded? || MessageFailed?
    }
  }

  /** What an error is about. */
  datatype ErrorScope = OfStream | OfSource

  datatype Event =
    | Announced
    | Data(number: nat, frames: nat)
    | StreamError(kind: ErrorKind, hint: RetryHint, scope: ErrorScope)
    | StreamEnded(reason: S.StreamEndReason)

  /**
   Where the capture thread stands. When it fails or has exited, its end of the pool is gone; when
   it leaves in order, the last message is out before that end is dropped.
   */
  datatype Capturing =
    | Starting
    | BeforeLoop
    | InLoop
    | Holding(buffer: Buffer)
    | Ending(end: CaptureEnd)
    | Leaving
    | Failing(failure: (ErrorKind, RetryHint))
    | Exited

  datatype Outcome =
    | OkReport
    | ErrStartup(failure: (ErrorKind, RetryHint))
    | ErrRecycleFailed
    | ErrOutOfOrder
    | ErrChannelClosed

  datatype Processing =
    | AwaitingStart
    | Running
    | Handling(number: nat, frames: nat, buffer: Buffer)
    | Draining
    | Returned(outcome: Outcome)

  datatype Report = Report(packetCount: nat, audioFrameCount: nat, sourceFrameCount: nat, end: CaptureEnd)

  const INITIAL_REPORT := Report(0, 0, 0, EndFailed)

  /** `sent` are the frame counts of the packets handed over; `lost` are buffers no one will return. */
  datatype State = State(
    capture: Capturing,
    processing: Processing,
    queue: seq<Message>,
    pool: seq<Buffer>,
    sent: seq<nat>,
    lost: seq<Buffer>,
    events: seq<Event>,
    report: Report)
  {
    predicate PoolIsOpen() {
      !capture.Failing? && !capture.Exited?
    }

    predicate QueueIsOpen() {
      !processing.Returned?
    }
  }

  const INITIAL := State(Starting, AwaitingStart, [], [0, 1, 2, 3], [], [], [], INITIAL_REPORT)

  /** How a capture end is reported to the consumer. */
  function ContractEnd(end: CaptureEnd): (Option<Event>, S.StreamEndReason) {
    match end
    case StopRequested => (None, S.ProviderShutdown)
    case DurationElapsed => (None, S.ConsumerCancelled)
    case EndSourceReconfigured =>
      (Some(StreamError(KindStreamInterrupted, RetryNow, OfStream)), S.EndedSourceReconfigured)
    case EndSourceUnavailable => (Some(StreamError(KindSourceUnavailable, WaitForSource, OfSource)), S.SourceEnded)
    case EndInterrupted => (Some(StreamError(KindStreamInterrupted, RetryLater, OfStream)), S.EndedFailed)
    case BoundedHandoffExhausted => (Some(StreamError(KindResourceExhausted, RetryLater, OfStream)), S.EndedFailed)
    case DataDiscontinuity => (Some(StreamError(KindStreamInterrupted, RetryNow, OfStream)), S.EndedFailed)
    case EndFailed => (Some(StreamError(KindInternal, RetryLater, OfStream)), S.EndedFailed)
  }

  function EndEvents(end: CaptureEnd): seq<Event> {
    match ContractEnd(end)
    case (None, reason) => [StreamEnded(reason)]
    case (Some(error), reason) => [error, StreamEnded(reason)]
  }

  function FailureEvents(failure: (ErrorKind, RetryHint)): seq<Event> {
    [StreamError(failure.0, failure.1, OfStream), StreamEnded(S.EndedFailed)]
  }

  const INTERRUPTED: (ErrorKind, RetryHint) := (KindStreamInterrupted, RetryNow)

  // ----- steps -----

  datatype Step =
    | FailStartup(startupFailure: (ErrorKind, RetryHint))
    | SendStarted
    | FailBeforeLoop(earlyFailure: (ErrorKind, RetryHint))
    | EnterLoop
    | LeaveLoop(reason: CaptureEnd)
    | TakeBuffer
    | FailToRead(error: CaptureEnd)
    | SendPacket(packetFrames: nat)
    | SendEnded
    | ReleasePool
    | SendFailed
    | Receive
    | Build(accepted: bool)

  function BuffersOf(queue: seq<Message>): seq<Buffer> {
    if queue == [] then []
    else (if queue[0].MessagePacket? then [queue[0].buffer] else []) + BuffersOf(queue[1..])
  }

  /** One step of the capture thread, if it is the next thing the thread can do. */
  function CaptureStep(s: State, step: Step): Option<State> {
    match (s.capture, step)
    case (Starting, FailStartup(failure)) => Some(s.(capture := Failing(failure)))
    case (Starting, SendStarted) =>
      if !s.QueueIsOpen() then Some(s.(capture := Failing((KindInternal, RetryLater))))
      else if |s.queue| < HANDOFF_CAPACITY then Some(s.(capture := BeforeLoop, queue := s.queue + [MessageStarted]))
      else None
    case (BeforeLoop, FailBeforeLoop(failure)) => Some(s.(capture := Failing(failure)))
    case (BeforeLoop, EnterLoop) => Some(s.(capture := InLoop))
    case (InLoop, LeaveLoop(end)) => Some(s.(capture := Ending(end)))
    case (InLoop, TakeBuffer) =>
      if s.pool != [] then Some(s.(capture := Holding(s.pool[0]), pool := s.pool[1..]))
      else if s.QueueIsOpen() then Some(s.(capture := Ending(BoundedHandoffExhausted)))
      else Some(s.(capture := Ending(EndFailed)))
    case (Holding(b), FailToRead(end)) => Some(s.(capture := Ending(end), lost := s.lost + [b]))
    case (Holding(b), SendPacket(frames)) =>
      if !s.QueueIsOpen() then Some(s.(capture := Ending(EndFailed), lost := s.lost + [b]))
      else if |s.queue| < HANDOFF_CAPACITY then
        Some(s.(capture := InLoop, queue := s.queue + [MessagePacket(|s.sent|, frames, b)], sent := s.sent + [frames]))
      else Some(s.(capture := Ending(BoundedHandoffExhausted), lost := s.lost + [b]))
    case (Ending(end), SendEnded) => SendLast(s, MessageEnded(end), Leaving)
    case (Leaving, ReleasePool) => Some(s.(capture := Exited))
    case (Failing(failure), SendFailed) => SendLast(s, MessageFailed(failure), Exited)
    case (_, _) => None
  }

  /** The last message waits for room; with no one to receive it the thread is gone at once. */
  function SendLast(s: State, message: Message, next: Capturing): Option<State> {
    if !s.QueueIsOpen() then Some(s.(capture := Exited))
    else if |s.queue| < HANDOFF_CAPACITY then Some(s.(capture := next, queue := s.queue + [message]))
    else None
  }

  /** Returning drops the receiving end, with every message still in the queue. */
  function Return(s: State, outcome: Outcome, events: seq<Event>): State {
    s.(processing := Returned(outcome), lost := s.lost + BuffersOf(s.queue), queue := [], events := s.events + events)
  }

  function AfterStart(s: State, message: Message): State {
    match message
    case MessagePacket(number, frames, buffer) =>
      s.(processing := Handling(number, frames, buffer),
         report := s.report.(packetCount := s.report.packetCount + 1))
    case MessageEnded(end) => Return(s.(report := s.report.(end := end)), OkReport, EndEvents(end))
    case MessageFailed(failure) => Return(s.(report := s.report.(end := EndFailed)), OkReport, FailureEvents(failure))
    case MessageStarted => Return(s, ErrOutOfOrder, [])
  }

  /** After the stream broke, everything up to the last message is dropped. */
  function Drained(s: State, message: Message): State {
    match message
    case MessagePacket(_, _, buffer) => s.(lost := s.lost + [buffer])
    case MessageEnded(_) => Return(s, OkReport, [])
    case MessageFailed(_) => Return(s, OkReport, [])
    case MessageStarted => s
  }

  /** One received message, or the end of the channel once the capture thread is gone. */
  function ReceiveStep(s: State): Option<State> {
    if s.queue == [] then
      if !s.capture.Exited? then None
      else
        match s.processing
        case AwaitingStart => Some(Return(s, ErrChannelClosed, []))
        case Running => Some(Return(s, ErrChannelClosed, []))
        case Draining => Some(Return(s, OkReport, []))
        case _ => None
    else
      var message, rest := s.queue[0], s.(queue := s.queue[1..]);
      match s.processing
      case AwaitingStart =>
        (match message
         case MessageStarted => Some(rest.(processing := Running, events := s.events + [Announced]))
         case MessageFailed(failure) => Some(Return(rest, ErrStartup(failure), []))
         case _ => Some(Return(rest, ErrOutOfOrder, [])))
      case Running => Some(AfterStart(rest, message))
      case Draining => Some(Drained(rest, message))
      case _ => None
  }

  /** The packet goes through the builder and its buffer back to the pool, which must take it. */
  function BuildStep(s: State, accepted: bool): Option<State> {
    match s.processing
    case Handling(number, frames, buffer) =>
      if !s.PoolIsOpen() || |s.pool| >= HANDOFF_CAPACITY then
        Some(Return(s, ErrRecycleFailed, []).(lost := s.lost + BuffersOf(s.queue) + [buffer]))
      else
        var recycled := s.(pool := s.pool + [buffer]);
        if accepted then
          Some(recycled.(processing := Running, events := s.events + [Data(number, frames)],
                         report := s.report.(audioFrameCount := s.report.audioFrameCount + 1,
                                             sourceFrameCount := s.report.sourceFrameCount + frames)))
        else
          Some(recycled.(processing := Draining, events := s.events + FailureEvents(INTERRUPTED),
                         report := s.report.(end := DataDiscontinuity)))
    case _ => None
  }

  function Perform(s: State, step: Step): Option<State> {
    match step
    case Receive => ReceiveStep(s)
    case Build(accepted) => BuildStep(s, accepted)
    case _ => CaptureStep(s, step)
  }

  ghost predicate IsHandoff(states: seq<State>, steps: seq<Step>) {
    && |states| == |steps| + 1
    && states[0] == INITIAL
    && forall i :: 0 <= i < |steps| ==> Perform(states[i], steps[i]) == Some(states[i + 1])
  }
}
