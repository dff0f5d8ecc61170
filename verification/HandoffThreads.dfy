/** The two threads of the handoff, changing their shared channels and their own state in place. */
module HandoffThreads {
  import opened Base
  import opened Handoff
  import opened HandoffRuns
  import opened Owner
  import opened RecoveryTypes

  class Threads {
    var capture: Capturing
    var processing: Processing
    var queue: seq<Message>
    var pool: seq<Buffer>
    var sent: seq<nat>
    var lost: seq<Buffer>
    var events: seq<Event>
    var report: Report

    function Value(): State
      reads this
    {
      State(capture, processing, queue, pool, sent, lost, events, report)
    }

    constructor ()
      ensures Value() == INITIAL
    {
      capture, processing, queue, pool := Starting, AwaitingStart, [], [0, 1, 2, 3];
      sent, lost, events, report := [], [], [], INITIAL_REPORT;
    }

    // ----- the processing thread -----

    method Finish(outcome: Outcome, ending: seq<Event>)
      modifies `processing, `lost, `queue, `events
      ensures Value() == Return(old(Value()), outcome, ending)
    {
      processing := Returned(outcome);
      lost, queue := lost + BuffersOf(queue), [];
      events := events + ending;
    }

    method OpenStream(message: Message)
      modifies `processing, `lost, `queue, `events
      requires processing.AwaitingStart?
      ensures message.MessageStarted? ==>
                Value() == old(Value()).(processing := Running, events := old(events) + [Announced])
      ensures message.MessageFailed? ==> Value() == Return(old(Value()), ErrStartup(message.failure), [])
      ensures message.MessagePacket? || message.MessageEnded? ==> Value() == Return(old(Value()), ErrOutOfOrder, [])
    {
      match message
      case MessageStarted =>
        processing := Running;
        events := events + [Announced];
      case MessageFailed(failure) => Finish(ErrStartup(failure), []);
      case MessagePacket(_, _, _) => Finish(ErrOutOfOrder, []);
      case MessageEnded(_) => Finish(ErrOutOfOrder, []);
    }

    method HandleMessage(message: Message)
      modifies `processing, `lost, `queue, `events, `report
      requires processing.Running?
      ensures Value() == AfterStart(old(Value()), message)
    {
      match message
      case MessagePacket(number, frames, buffer) =>
        report := report.(packetCount := report.packetCount + 1);
        processing := Handling(number, frames, buffer);
      case MessageEnded(end) =>
        report := report.(end := end);
        Finish(OkReport, EndEvents(end));
      case MessageFailed(failure) =>
        report := report.(end := EndFailed);
        Finish(OkReport, FailureEvents(failure));
      case MessageStarted => Finish(ErrOutOfOrder, []);
    }

    method DropMessage(message: Message)
      modifies `processing, `lost, `queue, `events
      ensures Value() == Drained(old(Value()), message)
    {
      match message
      case MessagePacket(_, _, buffer) => lost := lost + [buffer];
      case MessageEnded(_) => Finish(OkReport, []);
      case MessageFailed(_) => Finish(OkReport, []);
      case MessageStarted =>
    }

    /** One `recv`; it waits while the queue is empty and the capture thread lives. */
    method ReceiveMessage() returns (went: bool)
      modifies this
      ensures ReceiveStep(old(Value())) == if went then Some(Value()) else None
      ensures !went ==> Value() == old(Value())
    {
      if processing.Returned? || processing.Handling? {
        return false;
      }
      if queue == [] {
        if !capture.Exited? {
          return false;
        }
        Finish(if processing.Draining? then OkReport else ErrChannelClosed, []);
        return true;
      }
      var message := queue[0];
      queue := queue[1..];
      if processing.AwaitingStart? {
        OpenStream(message);
      } else if processing.Running? {
        HandleMessage(message);
      } else {
        DropMessage(message);
      }
      return true;
    }

    /** The received packet is built, its buffer returned to the pool, and the result told. */
    method BuildPacket(accepted: bool) returns (went: bool)
      modifies this
      ensures BuildStep(old(Value()), accepted) == if went then Some(Value()) else None
      ensures !went ==> Value() == old(Value())
    {
      if !processing.Handling? {
        return false;
      }
      var Handling(number, frames, buffer) := processing;
      if capture.Failing? || capture.Exited? || |pool| >= HANDOFF_CAPACITY {
        lost := lost + BuffersOf(queue) + [buffer];
        queue, processing := [], Returned(ErrRecycleFailed);
        assert events + [] == events;
        return true;
      }
      pool := pool + [buffer];
      if accepted {
        report := report.(audioFrameCount := report.audioFrameCount + 1,
                          sourceFrameCount := report.sourceFrameCount + frames);
        events := events + [Data(number, frames)];
        processing := Running;
      } else {
        events := events + FailureEvents(INTERRUPTED);
        report := report.(end := DataDiscontinuity);
        processing := Draining;
      }
      return true;
    }

    // ----- the capture thread -----

    method AcquireBuffer()
      modifies `capture, `pool
      requires capture.InLoop?
      ensures CaptureStep(old(Value()), TakeBuffer) == Some(Value())
    {
      if pool != [] {
        capture, pool := Holding(pool[0]), pool[1..];
      } else if !processing.Returned? {
        capture := Ending(BoundedHandoffExhausted);
      } else {
        capture := Ending(EndFailed);
      }
    }

    method HandOver(frames: nat)
      modifies `capture, `queue, `sent, `lost
      requires capture.Holding?
      ensures CaptureStep(old(Value()), SendPacket(frames)) == Some(Value())
    {
      var buffer := capture.buffer;
      if processing.Returned? {
        capture, lost := Ending(EndFailed), lost + [buffer];
      } else if |queue| < HANDOFF_CAPACITY {
        queue := queue + [MessagePacket(|sent|, frames, buffer)];
        capture, sent := InLoop, sent + [frames];
      } else {
        capture, lost := Ending(BoundedHandoffExhausted), lost + [buffer];
      }
    }

    /** The last message waits for room while there is someone to receive it. */
    method SendTheLast(message: Message, next: Capturing) returns (went: bool)
      modifies `capture, `queue
      ensures SendLast(old(Value()), message, next) == if went then Some(Value()) else None
      ensures !went ==> Value() == old(Value())
    {
      if processing.Returned? {
        capture := Exited;
        return true;
      }
      if |queue| >= HANDOFF_CAPACITY {
        return false;
      }
      capture, queue := next, queue + [message];
      return true;
    }

    method AnnounceStream() returns (went: bool)
      modifies `capture, `queue
      requires capture.Starting?
      ensures CaptureStep(old(Value()), SendStarted) == if went then Some(Value()) else None
      ensures !went ==> Value() == old(Value())
    {
      if processing.Returned? {
        capture := Failing((KindInternal, RetryLater));
        return true;
      }
      if |queue| >= HANDOFF_CAPACITY {
        return false;
      }
      capture, queue := BeforeLoop, queue + [MessageStarted];
      return true;
    }

    /** The next thing the capture thread does, if this is it and it can. */
    method Capture(step: Step) returns (went: bool)
      modifies this
      ensures CaptureStep(old(Value()), step) == if went then Some(Value()) else None
      ensures !went ==> Value() == old(Value())
    {
      match (capture, step)
      case (Starting, FailStartup(failure)) => capture := Failing(failure); return true;
      case (Starting, SendStarted) => went := AnnounceStream();
      case (BeforeLoop, FailBeforeLoop(failure)) => capture := Failing(failure); return true;
      case (BeforeLoop, EnterLoop) => capture := InLoop; return true;
      case (InLoop, LeaveLoop(end)) => capture := Ending(end); return true;
      case (InLoop, TakeBuffer) => AcquireBuffer(); return true;
      case (Holding(b), FailToRead(end)) => capture, lost := Ending(end), lost + [b]; return true;
      case (Holding(_), SendPacket(frames)) => HandOver(frames); return true;
      case (Ending(end), SendEnded) => went := SendTheLast(MessageEnded(end), Leaving);
      case (Leaving, ReleasePool) => capture := Exited; return true;
      case (Failing(failure), SendFailed) => went := SendTheLast(MessageFailed(failure), Exited);
      case (_, _) => return false;
    }
  }

  /** Any interleaving of the two threads, each choice taken when its thread can take it, is a handoff. */
  method Interleave(choices: seq<Step>) returns (t: Threads, ghost states: seq<State>, ghost steps: seq<Step>)
    ensures IsHandoff(states, steps) && t.Value() == states[|steps|] && Inv(t.Value())
  {
    t := new Threads();
    states, steps := [INITIAL], [];
    for i := 0 to |choices|
      invariant fresh(t)
      invariant IsHandoff(states, steps) && t.Value() == states[|steps|]
    {
      var went;
      match choices[i] {
        case Receive => went := t.ReceiveMessage();
        case Build(accepted) => went := t.BuildPacket(accepted);
        case _ => went := t.Capture(choices[i]);
      }
      if went {
        Extend(states, steps, choices[i], t.Value());
        states, steps := states + [t.Value()], steps + [choices[i]];
      }
    }
    EveryInterleaving(states, steps, |steps|);
  }
}
