/** What every interleaving of the two threads keeps. */
module HandoffRuns {
  import opened Base
  import opened Handoff
  import opened Owner

  // ----- buffers -----

  function Occurrences(buffers: seq<Buffer>, b: Buffer): nat {
    if buffers == [] then 0
    else Occurrences(buffers[..|buffers| - 1], b) + if buffers[|buffers| - 1] == b then 1 else 0
  }

  function HeldCount(s: State): nat {
    (if s.capture.Holding? then 1 else 0) + if s.processing.Handling? then 1 else 0
  }

  function HeldOccurrences(s: State, b: Buffer): nat {
    (if s.capture.Holding? && s.capture.buffer == b then 1 else 0)
    + if s.processing.Handling? && s.processing.buffer == b then 1 else 0
  }

  /** In how many places a buffer is: the pool, the queue, the hands of a thread, or lost. */
  function Places(s: State, b: Buffer): nat {
    Occurrences(s.pool, b) + Occurrences(BuffersOf(s.queue), b) + HeldOccurrences(s, b) + Occurrences(s.lost, b)
  }

  function Total(s: State): nat {
    |s.pool| + |BuffersOf(s.queue)| + HeldCount(s) + |s.lost|
  }

  /** The four buffers are each in exactly one place, and there are no others. */
  ghost predicate Conserved(s: State) {
    Total(s) == HANDOFF_CAPACITY && forall b: Buffer :: Places(s, b) == if b < HANDOFF_CAPACITY then 1 else 0
  }

  predicate CaptureIsWorking(s: State) {
    s.capture.Starting? || s.capture.BeforeLoop? || s.capture.InLoop? || s.capture.Holding?
  }

  predicate ProcessingIsWorking(s: State) {
    s.processing.AwaitingStart? || s.processing.Running? || s.processing.Handling?
  }

  /** None is lost while both threads work. */
  predicate NothingLost(s: State) {
    CaptureIsWorking(s) && ProcessingIsWorking(s) ==> s.lost == []
  }

  lemma {:induction false} OccurrencesAppend(a: seq<Buffer>, c: seq<Buffer>, b: Buffer)
    ensures Occurrences(a + c, b) == Occurrences(a, b) + Occurrences(c, b)
  {
    if c == [] {
      assert a + c == a;
    } else {
      OccurrencesAppend(a, c[..|c| - 1], b);
      assert (a + c)[..|a + c| - 1] == a + c[..|c| - 1];
    }
  }

  lemma OccurrencesOne(x: Buffer, b: Buffer)
    ensures Occurrences([x], b) == if x == b then 1 else 0
  {
    assert [x][..0] == [];
  }

  lemma {:induction false} BuffersOfAppend(queue: seq<Message>, m: Message)
    ensures BuffersOf(queue + [m]) == BuffersOf(queue) + if m.MessagePacket? then [m.buffer] else []
  {
    if queue == [] {
      assert (queue + [m])[1..] == [];
    } else {
      BuffersOfAppend(queue[1..], m);
      assert (queue + [m])[1..] == queue[1..] + [m];
    }
  }

  /** The step moves buffers about, but makes and drops none. */
  predicate Moves(s: State, next: State, b: Buffer) {
    Total(next) == Total(s) && Places(next, b) == Places(s, b)
  }

  lemma QueueGrows(s: State, next: State, m: Message, b: Buffer)
    requires next.queue == s.queue + [m]
    ensures |BuffersOf(next.queue)| == |BuffersOf(s.queue)| + if m.MessagePacket? then 1 else 0
    ensures Occurrences(BuffersOf(next.queue), b)
         == Occurrences(BuffersOf(s.queue), b) + if m.MessagePacket? && m.buffer == b then 1 else 0
  {
    BuffersOfAppend(s.queue, m);
    if m.MessagePacket? {
      OccurrencesAppend(BuffersOf(s.queue), [m.buffer], b);
      OccurrencesOne(m.buffer, b);
    } else {
      assert BuffersOf(s.queue) + [] == BuffersOf(s.queue);
    }
  }

  lemma QueueShrinks(queue: seq<Message>, b: Buffer)
    requires queue != []
    ensures |BuffersOf(queue)| == |BuffersOf(queue[1..])| + if queue[0].MessagePacket? then 1 else 0
    ensures Occurrences(BuffersOf(queue), b)
         == Occurrences(BuffersOf(queue[1..]), b) + if queue[0].MessagePacket? && queue[0].buffer == b then 1 else 0
  {
    var head := if queue[0].MessagePacket? then [queue[0].buffer] else [];
    OccurrencesAppend(head, BuffersOf(queue[1..]), b);
    if queue[0].MessagePacket? {
      OccurrencesOne(queue[0].buffer, b);
    }
  }

  lemma AddedTo(buffers: seq<Buffer>, x: Buffer, b: Buffer)
    ensures Occurrences(buffers + [x], b) == Occurrences(buffers, b) + if x == b then 1 else 0
  {
    OccurrencesAppend(buffers, [x], b);
    OccurrencesOne(x, b);
  }

  lemma TakenFrom(buffers: seq<Buffer>, b: Buffer)
    requires buffers != []
    ensures Occurrences(buffers, b) == Occurrences(buffers[1..], b) + if buffers[0] == b then 1 else 0
  {
    assert buffers == [buffers[0]] + buffers[1..];
    OccurrencesAppend([buffers[0]], buffers[1..], b);
    OccurrencesOne(buffers[0], b);
  }

  lemma CaptureMoves(s: State, step: Step, next: State, b: Buffer)
    requires CaptureStep(s, step) == Some(next)
    ensures Moves(s, next, b)
  {
    if next.queue != s.queue {
      QueueGrows(s, next, next.queue[|s.queue|], b);
    }
    if s.capture.Holding? {
      AddedTo(s.lost, s.capture.buffer, b);
    }
    if s.capture.InLoop? && s.pool != [] {
      TakenFrom(s.pool, b);
    }
  }

  lemma ReturnMoves(s: State, outcome: Outcome, events: seq<Event>, b: Buffer)
    requires !s.processing.Handling?
    ensures Moves(s, Return(s, outcome, events), b)
  {
    OccurrencesAppend(s.lost, BuffersOf(s.queue), b);
    assert BuffersOf([]) == [] && Occurrences([], b) == 0;
  }

  lemma ReceiveMoves(s: State, next: State, b: Buffer)
    requires ReceiveStep(s) == Some(next) && (s.processing.AwaitingStart? ==> s.queue == [] || !s.queue[0].MessagePacket?)
    ensures Moves(s, next, b)
  {
    if s.queue == [] {
      ReturnMoves(s, next.processing.outcome, [], b);
    } else if s.processing.Draining? {
      DrainMoves(s, next, b);
    } else {
      MessageMoves(s, next, b);
    }
  }

  lemma DrainMoves(s: State, next: State, b: Buffer)
    requires s.queue != [] && s.processing.Draining? && ReceiveStep(s) == Some(next)
    ensures Moves(s, next, b)
  {
    var rest := s.(queue := s.queue[1..]);
    QueueShrinks(s.queue, b);
    if s.queue[0].MessagePacket? {
      AddedTo(rest.lost, s.queue[0].buffer, b);
    } else if s.queue[0].IsFinal() {
      ReturnMoves(rest, OkReport, [], b);
    }
  }

  /** The message taken from the queue carries its buffer along. */
  lemma Taken(s: State, rest: State, b: Buffer)
    requires s.queue != [] && rest == s.(queue := s.queue[1..])
    ensures Total(s) == Total(rest) + if s.queue[0].MessagePacket? then 1 else 0
    ensures Places(s, b) == Places(rest, b) + if s.queue[0].MessagePacket? && s.queue[0].buffer == b then 1 else 0
  {
    QueueShrinks(s.queue, b);
  }

  lemma AfterStartMoves(rest: State, message: Message, b: Buffer)
    requires rest.processing.Running?
    ensures var next := AfterStart(rest, message);
            && Total(next) == Total(rest) + (if message.MessagePacket? then 1 else 0)
            && Places(next, b) == Places(rest, b) + if message.MessagePacket? && message.buffer == b then 1 else 0
  {
    if !message.MessagePacket? {
      ReturnMoves(rest, AfterStart(rest, message).processing.outcome, [], b);
    }
  }

  lemma MessageMoves(s: State, next: State, b: Buffer)
    requires s.queue != [] && !s.processing.Draining? && ReceiveStep(s) == Some(next)
    requires s.processing.AwaitingStart? ==> !s.queue[0].MessagePacket?
    ensures Moves(s, next, b)
  {
    var rest := s.(queue := s.queue[1..]);
    Taken(s, rest, b);
    if s.processing.Running? {
      AfterStartMoves(rest, s.queue[0], b);
    } else if next.processing.Returned? {
      ReturnMoves(rest, next.processing.outcome, [], b);
    }
  }

  lemma BuildMoves(s: State, accepted: bool, next: State, b: Buffer)
    requires BuildStep(s, accepted) == Some(next)
    ensures Moves(s, next, b)
  {
    var buffer := s.processing.buffer;
    if next.processing.Returned? {
      OccurrencesAppend(s.lost, BuffersOf(s.queue), b);
      AddedTo(s.lost + BuffersOf(s.queue), buffer, b);
      assert BuffersOf([]) == [] && Occurrences([], b) == 0;
    } else {
      AddedTo(s.pool, buffer, b);
    }
  }

  // ----- order -----

  /** The queue holds the packets from number `n` on, in order, and the last message if it is out. */
  predicate IsTail(queue: seq<Message>, n: nat, sent: seq<nat>, ended: bool) {
    if queue == [] then n == |sent| && !ended
    else if queue[0].MessagePacket? then
      && n < |sent| && queue[0].number == n && queue[0].frames == sent[n]
      && IsTail(queue[1..], n + 1, sent, ended)
    else queue[0].IsFinal() && |queue| == 1 && n == |sent| && ended
  }

  lemma {:induction false} TailGrows(queue: seq<Message>, n: nat, sent: seq<nat>, frames: nat, buffer: Buffer)
    requires IsTail(queue, n, sent, false)
    ensures IsTail(queue + [MessagePacket(|sent|, frames, buffer)], n, sent + [frames], false)
  {
    var more := queue + [MessagePacket(|sent|, frames, buffer)];
    if queue == [] {
      assert more[1..] == [];
    } else {
      TailGrows(queue[1..], n + 1, sent, frames, buffer);
      assert more[1..] == queue[1..] + [MessagePacket(|sent|, frames, buffer)];
    }
  }

  lemma {:induction false} TailEnds(queue: seq<Message>, n: nat, sent: seq<nat>, last: Message)
    requires IsTail(queue, n, sent, false) && last.IsFinal()
    ensures IsTail(queue + [last], n, sent, true)
  {
    if queue != [] {
      TailEnds(queue[1..], n + 1, sent, last);
      assert (queue + [last])[1..] == queue[1..] + [last];
    }
  }

  /** Packets only, unless the last message is out. */
  lemma {:induction false} TailLength(queue: seq<Message>, n: nat, sent: seq<nat>, ended: bool)
    requires IsTail(queue, n, sent, ended)
    ensures |queue| == |BuffersOf(queue)| + if ended then 1 else 0
    ensures n + |BuffersOf(queue)| == |sent|
  {
    if queue != [] && queue[0].MessagePacket? {
      TailLength(queue[1..], n + 1, sent, ended);
    }
  }

  predicate HasEnded(s: State) {
    s.capture.Leaving? || s.capture.Exited?
  }

  /** The queue before the stream is announced. */
  predicate IsOpening(s: State) {
    if s.queue == [] then s.sent == [] && (s.capture.Starting? || s.capture.Failing?)
    else if s.queue[0].MessageStarted? then !s.capture.Starting? && IsTail(s.queue[1..], 0, s.sent, HasEnded(s))
    else |s.queue| == 1 && s.queue[0].MessageFailed? && s.sent == [] && s.capture.Exited?
  }

  /** What the queue holds, seen from where the processing thread stands. */
  predicate InOrder(s: State) {
    match s.processing
    case AwaitingStart => IsOpening(s)
    case Running => !s.capture.Starting? && IsTail(s.queue, s.report.audioFrameCount, s.sent, HasEnded(s))
    case Handling(number, frames, _) =>
      && !s.capture.Starting? && number == s.report.audioFrameCount < |s.sent| && frames == s.sent[number]
      && IsTail(s.queue, number + 1, s.sent, HasEnded(s))
    case Draining =>
      && !s.capture.Starting? && |BuffersOf(s.queue)| <= |s.sent|
      && IsTail(s.queue, |s.sent| - |BuffersOf(s.queue)|, s.sent, HasEnded(s))
    case Returned(_) => s.queue == []
  }

  lemma OpeningStep(s: State, step: Step, next: State)
    requires s.processing.AwaitingStart? && InOrder(s) && CaptureStep(s, step) == Some(next)
    ensures InOrder(next)
  {
    if s.queue != [] {
      var tail := s.queue[1..];
      if next.queue != s.queue {
        var m := next.queue[|s.queue|];
        assert next.queue[1..] == tail + [m];
        if m.MessagePacket? {
          TailGrows(tail, 0, s.sent, m.frames, m.buffer);
        } else {
          TailEnds(tail, 0, s.sent, m);
        }
      }
    } else if next.queue != [] {
      assert next.queue[1..] == [];
    }
  }

  lemma TailStep(s: State, step: Step, next: State, n: nat)
    requires CaptureStep(s, step) == Some(next) && s.QueueIsOpen() && !s.capture.Starting?
    requires IsTail(s.queue, n, s.sent, HasEnded(s))
    ensures !next.capture.Starting? && IsTail(next.queue, n, next.sent, HasEnded(next))
    ensures next.processing == s.processing && next.report == s.report && s.sent <= next.sent
    ensures |next.sent| - |BuffersOf(next.queue)| == |s.sent| - |BuffersOf(s.queue)|
  {
    if next.queue != s.queue {
      var m := next.queue[|s.queue|];
      if m.MessagePacket? {
        TailGrows(s.queue, n, s.sent, m.frames, m.buffer);
      } else {
        TailEnds(s.queue, n, s.sent, m);
      }
      BuffersOfAppend(s.queue, m);
    }
  }

  /** The number the queue starts at, once the stream is running. */
  function FirstQueued(s: State): int {
    match s.processing
    case Running => s.report.audioFrameCount
    case Handling(number, _, _) => number + 1
    case _ => |s.sent| - |BuffersOf(s.queue)|
  }

  lemma StreamingStep(s: State, step: Step, next: State)
    requires !s.processing.AwaitingStart? && s.QueueIsOpen() && InOrder(s) && CaptureStep(s, step) == Some(next)
    ensures InOrder(next)
  {
    TailStep(s, step, next, FirstQueued(s));
  }

  lemma CaptureKeepsOrder(s: State, step: Step, next: State)
    requires InOrder(s) && CaptureStep(s, step) == Some(next)
    ensures InOrder(next)
  {
    if s.processing.AwaitingStart? {
      OpeningStep(s, step, next);
    } else if s.QueueIsOpen() {
      StreamingStep(s, step, next);
    }
  }

  lemma ReceiveKeepsOrder(s: State, next: State)
    requires InOrder(s) && ReceiveStep(s) == Some(next)
    requires s.processing.AwaitingStart? ==> s.report == INITIAL_REPORT
    ensures InOrder(next)
  {
    if s.processing.Draining? && s.queue != [] {
      TailLength(s.queue, |s.sent| - |BuffersOf(s.queue)|, s.sent, HasEnded(s));
    }
  }

  lemma BuildKeepsOrder(s: State, accepted: bool, next: State)
    requires InOrder(s) && BuildStep(s, accepted) == Some(next)
    ensures InOrder(next)
  {
    TailLength(s.queue, s.processing.number + 1, s.sent, HasEnded(s));
  }

  // ----- what the consumer is told -----

  function DataOf(sent: seq<nat>, k: nat): seq<Event>
    requires k <= |sent|
  {
    if k == 0 then [] else DataOf(sent, k - 1) + [Data(k - 1, sent[k - 1])]
  }

  function FramesOf(sent: seq<nat>, k: nat): nat
    requires k <= |sent|
  {
    if k == 0 then 0 else FramesOf(sent, k - 1) + sent[k - 1]
  }

  lemma {:induction false} DataOfMore(sent: seq<nat>, more: seq<nat>, k: nat)
    requires k <= |sent| && sent <= more
    ensures DataOf(more, k) == DataOf(sent, k) && FramesOf(more, k) == FramesOf(sent, k)
  {
    if k > 0 {
      DataOfMore(sent, more, k - 1);
    }
  }

  /** The report counts the packets up to the first that was not delivered; `extra` more were received. */
  predicate Counts(report: Report, sent: seq<nat>, extra: nat) {
    && report.audioFrameCount <= |sent| && report.packetCount == report.audioFrameCount + extra
    && report.sourceFrameCount == FramesOf(sent, report.audioFrameCount)
  }

  function Streamed(report: Report, sent: seq<nat>): seq<Event>
    requires report.audioFrameCount <= |sent|
  {
    [Announced] + DataOf(sent, report.audioFrameCount)
  }

  /** One terminal event, after an error unless the end was asked for. */
  predicate IsEnding(t: seq<Event>) {
    if |t| == 1 then t[0].StreamEnded? && (t[0].reason.ProviderShutdown? || t[0].reason.ConsumerCancelled?)
    else |t| == 2 && t[0].StreamError? && t[1].StreamEnded?
  }

  predicate Told(outcome: Outcome, report: Report, sent: seq<nat>, events: seq<Event>) {
    match outcome
    case OkReport =>
      && (Counts(report, sent, 0) || Counts(report, sent, 1))
      && Streamed(report, sent) <= events && IsEnding(events[|Streamed(report, sent)|..])
      && (Counts(report, sent, 1) ==> events == Streamed(report, sent) + FailureEvents(INTERRUPTED))
    case ErrStartup(_) => events == []
    case ErrRecycleFailed => Counts(report, sent, 1) && events == Streamed(report, sent)
    case ErrOutOfOrder => false
    case ErrChannelClosed => false
  }

  predicate Tells(s: State) {
    match s.processing
    case AwaitingStart => s.events == [] && s.report == INITIAL_REPORT
    case Running => Counts(s.report, s.sent, 0) && s.events == Streamed(s.report, s.sent)
    case Handling(_, _, _) => Counts(s.report, s.sent, 1) && s.events == Streamed(s.report, s.sent)
    case Draining =>
      Counts(s.report, s.sent, 1) && s.events == Streamed(s.report, s.sent) + FailureEvents(INTERRUPTED)
    case Returned(outcome) => Told(outcome, s.report, s.sent, s.events)
  }

  lemma CaptureTells(s: State, step: Step, next: State)
    requires Tells(s) && CaptureStep(s, step) == Some(next)
    ensures Tells(next)
  {
    assert s.sent <= next.sent && next.report == s.report && next.events == s.events;
    if s.report.audioFrameCount <= |s.sent| {
      DataOfMore(s.sent, next.sent, s.report.audioFrameCount);
    }
  }

  lemma ReturnedOk(events: seq<Event>, report: Report, sent: seq<nat>, ending: seq<Event>)
    requires Counts(report, sent, 0) && events == Streamed(report, sent) && IsEnding(ending)
    ensures Told(OkReport, report, sent, events + ending)
  {
    assert (events + ending)[|events|..] == ending;
  }

  lemma ReceiveTells(s: State, next: State)
    requires Tells(s) && InOrder(s) && ReceiveStep(s) == Some(next)
    ensures Tells(next)
  {
    match s.processing
    case AwaitingStart =>
      assert DataOf(s.sent, 0) == [] && FramesOf(s.sent, 0) == 0;
    case Running =>
      if s.queue[0].MessageEnded? {
        ReturnedOk(s.events, s.report, s.sent, EndEvents(s.queue[0].end));
      } else if s.queue[0].MessageFailed? {
        ReturnedOk(s.events, s.report, s.sent, FailureEvents(s.queue[0].failure));
      }
    case Draining => DrainTells(s, next);
    case _ =>
  }

  lemma DrainTells(s: State, next: State)
    requires Tells(s) && s.processing.Draining? && ReceiveStep(s) == Some(next)
    ensures Tells(next)
  {
    var streamed := Streamed(s.report, s.sent);
    assert s.events[|streamed|..] == FailureEvents(INTERRUPTED);
    assert s.events + [] == s.events;
  }

  lemma BuildTells(s: State, accepted: bool, next: State)
    requires Tells(s) && InOrder(s) && BuildStep(s, accepted) == Some(next)
    ensures Tells(next)
  {
    if next.processing.Returned? {
      assert s.events + [] == s.events;
    } else if accepted {
      var k := s.report.audioFrameCount;
      assert DataOf(s.sent, k + 1) == DataOf(s.sent, k) + [Data(k, s.sent[k])];
      Associative([Announced], DataOf(s.sent, k), [Data(k, s.sent[k])]);
    }
  }

  // ----- every interleaving -----

  ghost predicate Inv(s: State) {
    Conserved(s) && NothingLost(s) && InOrder(s) && Tells(s)
  }

  lemma StepIsConserved(s: State, step: Step, next: State)
    requires Conserved(s) && InOrder(s) && Perform(s, step) == Some(next)
    ensures Conserved(next)
  {
    forall b: Buffer
      ensures Moves(s, next, b)
    {
      match step
      case Receive => ReceiveMoves(s, next, b);
      case Build(accepted) => BuildMoves(s, accepted, next, b);
      case _ => CaptureMoves(s, step, next, b);
    }
    assert Moves(s, next, 0);
    forall b: Buffer
      ensures Places(next, b) == if b < HANDOFF_CAPACITY then 1 else 0
    {
      assert Moves(s, next, b);
    }
  }

  lemma StepIsInOrder(s: State, step: Step, next: State)
    requires InOrder(s) && Tells(s) && Perform(s, step) == Some(next)
    ensures InOrder(next) && Tells(next)
  {
    match step
    case Receive =>
      ReceiveKeepsOrder(s, next);
      ReceiveTells(s, next);
    case Build(accepted) =>
      BuildKeepsOrder(s, accepted, next);
      BuildTells(s, accepted, next);
    case _ =>
      CaptureKeepsOrder(s, step, next);
      CaptureTells(s, step, next);
  }

  lemma StepLosesNothing(s: State, step: Step, next: State)
    requires NothingLost(s) && Perform(s, step) == Some(next)
    ensures NothingLost(next)
  {
  }

  lemma InitialInv()
    ensures Inv(INITIAL)
  {
    forall b: Buffer
      ensures Places(INITIAL, b) == if b < HANDOFF_CAPACITY then 1 else 0
    {
      AddedTo([0, 1, 2], 3, b);
      AddedTo([0, 1], 2, b);
      AddedTo([0], 1, b);
      OccurrencesOne(0, b);
      assert [0, 1, 2] + [3] == [0, 1, 2, 3] && [0, 1] + [2] == [0, 1, 2] && [0] + [1] == [0, 1];
    }
  }

  lemma {:induction false} EveryInterleaving(states: seq<State>, steps: seq<Step>, i: nat)
    requires IsHandoff(states, steps) && i <= |steps|
    ensures Inv(states[i])
  {
    if i == 0 {
      InitialInv();
    } else {
      EveryInterleaving(states, steps, i - 1);
      StepIsConserved(states[i - 1], steps[i - 1], states[i]);
      StepIsInOrder(states[i - 1], steps[i - 1], states[i]);
      StepLosesNothing(states[i - 1], steps[i - 1], states[i]);
    }
  }

  // ----- what follows for every reachable state -----

  /** While both threads work, the four buffers are exactly those in the pool, in the queue and in their hands. */
  lemma BuffersAreConserved(states: seq<State>, steps: seq<Step>, i: nat, b: Buffer)
    requires IsHandoff(states, steps) && i <= |steps|
    requires CaptureIsWorking(states[i]) && ProcessingIsWorking(states[i])
    ensures var s := states[i];
            && |s.pool| + |BuffersOf(s.queue)| + HeldCount(s) == HANDOFF_CAPACITY
            && Occurrences(s.pool, b) + Occurrences(BuffersOf(s.queue), b) + HeldOccurrences(s, b)
               == if b < HANDOFF_CAPACITY then 1 else 0
  {
    EveryInterleaving(states, steps, i);
    assert Places(states[i], b) == if b < HANDOFF_CAPACITY then 1 else 0;
  }

  /** Returning a buffer fails only because the capture thread is gone, never because the pool is full. */
  lemma RecycleFailsIff(states: seq<State>, steps: seq<Step>, i: nat, accepted: bool)
    requires IsHandoff(states, steps) && i <= |steps| && states[i].processing.Handling?
    ensures |states[i].pool| < HANDOFF_CAPACITY
    ensures BuildStep(states[i], accepted).Some?
    ensures BuildStep(states[i], accepted).value.processing == Returned(ErrRecycleFailed) <==>
            states[i].capture.Failing? || states[i].capture.Exited?
  {
    EveryInterleaving(states, steps, i);
  }

  /** A packet finds the queue full only while the announcement of the stream is still unread. */
  lemma FullOnlyBeforeStart(states: seq<State>, steps: seq<Step>, i: nat)
    requires IsHandoff(states, steps) && i <= |steps|
    requires states[i].capture.Holding? && |states[i].queue| >= HANDOFF_CAPACITY
    ensures states[i].queue[0].MessageStarted? && states[i].processing.AwaitingStart?
  {
    EveryInterleaving(states, steps, i);
    var s := states[i];
    match s.processing
    case AwaitingStart =>
    case Running => TailLength(s.queue, s.report.audioFrameCount, s.sent, false);
    case Handling(number, _, _) => TailLength(s.queue, number + 1, s.sent, false);
    case Draining => TailLength(s.queue, |s.sent| - |BuffersOf(s.queue)|, s.sent, false);
    case Returned(_) =>
  }

  /**
   However a capture that announced its stream returns Ok, the consumer was told, in order, of a
   prefix of the packets read, then of an error unless the end was asked for, then of the end; and
   the report counts exactly what was delivered.
   */
  lemma OkIsWhole(states: seq<State>, steps: seq<Step>, i: nat)
    requires IsHandoff(states, steps) && i <= |steps| && states[i].processing == Returned(OkReport)
    ensures var s := states[i];
            && s.report.audioFrameCount <= |s.sent|
            && s.report.sourceFrameCount == FramesOf(s.sent, s.report.audioFrameCount)
            && Streamed(s.report, s.sent) <= s.events
            && IsEnding(s.events[|Streamed(s.report, s.sent)|..])
            && s.report.audioFrameCount <= s.report.packetCount <= s.report.audioFrameCount + 1
            && (s.report.packetCount != s.report.audioFrameCount ==>
                  s.events == Streamed(s.report, s.sent) + FailureEvents(INTERRUPTED))
  {
    EveryInterleaving(states, steps, i);
  }

  /** The only other ways to return: before anything was announced, or without a terminal event. */
  lemma OtherOutcomes(states: seq<State>, steps: seq<Step>, i: nat)
    requires IsHandoff(states, steps) && i <= |steps| && states[i].processing.Returned?
    ensures var s := states[i];
            match s.processing.outcome
            case OkReport => true
            case ErrStartup(_) => s.events == []
            case ErrRecycleFailed =>
              s.report.audioFrameCount <= |s.sent| && s.events == Streamed(s.report, s.sent)
            case ErrOutOfOrder => false
            case ErrChannelClosed => false
  {
    EveryInterleaving(states, steps, i);
  }

  /** Some thread can always go on until both are done. */
  lemma NeverStuck(states: seq<State>, steps: seq<Step>, i: nat)
    requires IsHandoff(states, steps) && i <= |steps|
    ensures (states[i].capture.Exited? && states[i].processing.Returned?) || exists step :: Perform(states[i], step).Some?
  {
    EveryInterleaving(states, steps, i);
    var s := states[i];
    match s.capture
    case Starting => assert Perform(s, SendStarted).Some?;
    case BeforeLoop => assert Perform(s, EnterLoop).Some?;
    case InLoop => assert Perform(s, TakeBuffer).Some?;
    case Holding(_) => assert Perform(s, SendPacket(1)).Some?;
    case Leaving => assert Perform(s, ReleasePool).Some?;
    case Ending(_) =>
      if |s.queue| < HANDOFF_CAPACITY || s.processing.Returned? {
        assert Perform(s, SendEnded).Some?;
      } else {
        ProcessingGoesOn(s);
      }
    case Failing(_) =>
      if |s.queue| < HANDOFF_CAPACITY || s.processing.Returned? {
        assert Perform(s, SendFailed).Some?;
      } else {
        ProcessingGoesOn(s);
      }
    case Exited =>
      if !s.processing.Returned? {
        ProcessingGoesOn(s);
      }
  }

  lemma ProcessingGoesOn(s: State)
    requires !s.processing.Returned? && (s.queue != [] || s.capture.Exited?)
    ensures exists step :: Perform(s, step).Some?
  {
    if s.processing.Handling? {
      assert Perform(s, Build(true)).Some?;
    } else {
      assert Perform(s, Receive).Some?;
    }
  }

  // ----- both threads finish -----

  /** The capture thread is past its loop; only its last message and its end of the pool are left to it. */
  predicate IsLeaving(s: State) {
    s.capture.Ending? || s.capture.Leaving? || s.capture.Failing? || s.capture.Exited?
  }

  function ProcessingLeft(p: Processing): nat {
    match p
    case Handling(_, _, _) => 2
    case Returned(_) => 0
    case _ => 1
  }

  /** How many steps are left once the capture thread is past its loop: two for every message. */
  function StepsLeft(s: State): nat
    requires IsLeaving(s)
  {
    (match s.capture
     case Ending(_) => 4
     case Failing(_) => 3
     case Leaving => 1
     case _ => 0)
    + 2 * |s.queue| + ProcessingLeft(s.processing)
  }

  lemma LeavingStep(s: State, step: Step, next: State)
    requires IsLeaving(s) && Perform(s, step) == Some(next)
    ensures IsLeaving(next) && StepsLeft(next) < StepsLeft(s)
  {
    match step
    case Receive => LeavingReceive(s, next);
    case _ =>
  }

  lemma LeavingReceive(s: State, next: State)
    requires IsLeaving(s) && Perform(s, Receive) == Some(next)
    ensures IsLeaving(next) && StepsLeft(next) < StepsLeft(s)
  {
    if s.queue != [] {
      assert |s.queue[1..]| == |s.queue| - 1;
    }
  }

  lemma {:induction false} LeavingRun(states: seq<State>, steps: seq<Step>, i: nat, j: nat)
    requires IsHandoff(states, steps) && i <= j <= |steps| && IsLeaving(states[i])
    ensures IsLeaving(states[j]) && j - i <= StepsLeft(states[i]) - StepsLeft(states[j])
  {
    if i < j {
      LeavingRun(states, steps, i, j - 1);
      LeavingStep(states[j - 1], steps[j - 1], states[j]);
    }
  }

  /** What a capture thread without a receiver still does: its next send fails, and it is gone. */
  function AloneLeft(c: Capturing): nat {
    match c
    case Starting => 2
    case BeforeLoop => 5
    case InLoop => 4
    case Holding(_) => 3
    case Ending(_) => 2
    case Leaving => 1
    case Failing(_) => 1
    case Exited => 0
  }

  lemma AloneStep(s: State, step: Step, next: State)
    requires s.processing.Returned? && Perform(s, step) == Some(next)
    ensures next.processing.Returned? && AloneLeft(next.capture) < AloneLeft(s.capture)
  {
  }

  lemma {:induction false} AloneRun(states: seq<State>, steps: seq<Step>, i: nat, j: nat)
    requires IsHandoff(states, steps) && i <= j <= |steps| && states[i].processing.Returned?
    ensures states[j].processing.Returned?
    ensures j - i <= AloneLeft(states[i].capture) - AloneLeft(states[j].capture)
  {
    if i < j {
      AloneRun(states, steps, i, j - 1);
      AloneStep(states[j - 1], steps[j - 1], states[j]);
    }
  }

  lemma StepKeepsRoom(s: State, step: Step, next: State)
    requires |s.queue| <= HANDOFF_CAPACITY && Perform(s, step) == Some(next)
    ensures |next.queue| <= HANDOFF_CAPACITY
  {
  }

  lemma {:induction false} QueueIsBounded(states: seq<State>, steps: seq<Step>, i: nat)
    requires IsHandoff(states, steps) && i <= |steps|
    ensures |states[i].queue| <= HANDOFF_CAPACITY
  {
    if i > 0 {
      QueueIsBounded(states, steps, i - 1);
      StepKeepsRoom(states[i - 1], steps[i - 1], states[i]);
    }
  }

  ghost predicate IsStuck(s: State) {
    forall step :: Perform(s, step).None?
  }

  /**
   Under any schedule: once the capture thread is past its loop at most 14 steps follow, once the
   processing thread has returned at most 5; and no run ends before both are done.
   */
  lemma BothFinish(states: seq<State>, steps: seq<Step>, i: nat)
    requires IsHandoff(states, steps) && i <= |steps|
    ensures IsLeaving(states[i]) ==> |steps| <= i + 14
    ensures states[i].processing.Returned? ==> |steps| <= i + 5
    ensures IsStuck(states[|steps|]) <==> states[|steps|].capture.Exited? && states[|steps|].processing.Returned?
  {
    QueueIsBounded(states, steps, i);
    NeverStuck(states, steps, |steps|);
    if IsLeaving(states[i]) {
      LeavingRun(states, steps, i, |steps|);
    }
    if states[i].processing.Returned? {
      AloneRun(states, steps, i, |steps|);
    }
  }

  // ----- a stream that ends without its end -----

  predicate CanBeOvertaken(s: State) {
    s.processing.Running? && s.capture.InLoop? && s.queue != [] && |s.queue| < HANDOFF_CAPACITY
  }

  /**
   Whenever the capture ends with a packet still in the queue, the thread may be gone before that
   packet's buffer is returned; then the packet and the terminal event are lost.
   */
  lemma EndCanOvertakePacket(s: State, end: CaptureEnd, accepted: bool)
    requires InOrder(s) && CanBeOvertaken(s)
    ensures var ending := s.(capture := Ending(end));
            var leaving := ending.(capture := Leaving, queue := s.queue + [MessageEnded(end)]);
            var exited := leaving.(capture := Exited);
            && Perform(s, LeaveLoop(end)) == Some(ending)
            && Perform(ending, SendEnded) == Some(leaving)
            && Perform(leaving, ReleasePool) == Some(exited)
            && Perform(exited, Receive).Some?
            && Perform(Perform(exited, Receive).value, Build(accepted)).Some?
            && Perform(Perform(exited, Receive).value, Build(accepted)).value.processing == Returned(ErrRecycleFailed)
  {
  }

  lemma Extend(states: seq<State>, steps: seq<Step>, step: Step, next: State)
    requires IsHandoff(states, steps) && Perform(states[|steps|], step) == Some(next)
    ensures IsHandoff(states + [next], steps + [step])
  {
    var longer, more := states + [next], steps + [step];
    forall i | 0 <= i < |more|
      ensures Perform(longer[i], more[i]) == Some(longer[i + 1])
    {
      if i < |steps| {
        assert longer[i] == states[i] && longer[i + 1] == states[i + 1] && more[i] == steps[i];
      }
    }
  }

  ghost predicate IsReachable(s: State) {
    exists states, steps :: IsHandoff(states, steps) && states[|steps|] == s
  }

  lemma Reaches(s: State, step: Step, next: State)
    requires IsReachable(s) && Perform(s, step) == Some(next)
    ensures IsReachable(next)
  {
    var states, steps :| IsHandoff(states, steps) && states[|steps|] == s;
    Extend(states, steps, step, next);
    assert (states + [next])[|steps + [step]|] == next;
  }

  const RUNNING_EMPTY := INITIAL.(capture := InLoop, processing := Running, events := [Announced])

  lemma StartIsReachable()
    ensures IsReachable(RUNNING_EMPTY)
  {
    var announced := INITIAL.(capture := BeforeLoop, queue := [MessageStarted]);
    assert INITIAL.queue + [MessageStarted] == [MessageStarted] && [MessageStarted][1..] == INITIAL.queue;
    assert INITIAL.events + [Announced] == [Announced];
    var none: seq<Step> := [];
    assert IsHandoff([INITIAL], none) && [INITIAL][|none|] == INITIAL;
    Reaches(INITIAL, SendStarted, announced);
    Reaches(announced, EnterLoop, announced.(capture := InLoop));
    Reaches(announced.(capture := InLoop), Receive, RUNNING_EMPTY);
  }

  /** Such a moment is reached by the first packet of any capture. */
  lemma OvertakingIsReachable(frames: nat)
    ensures exists s :: IsReachable(s) && CanBeOvertaken(s)
  {
    StartIsReachable();
    var holding := RUNNING_EMPTY.(capture := Holding(0), pool := [1, 2, 3]);
    assert RUNNING_EMPTY.pool[1..] == [1, 2, 3];
    Reaches(RUNNING_EMPTY, TakeBuffer, holding);
    var sent := holding.(capture := InLoop, queue := holding.queue + [MessagePacket(0, frames, 0)],
                         sent := holding.sent + [frames]);
    Reaches(holding, SendPacket(frames), sent);
    assert CanBeOvertaken(sent);
  }
}
