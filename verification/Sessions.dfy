/**
 The limiter of simultaneous sessions (crates/resonance-agent/src/transport.rs): any number of
 calls of `try_acquire` and drops of its guards, interleaved on one shared counter.
 */
module Sessions {
  import opened Base

  const MAX_ACTIVE_SESSIONS: nat := 16

  /** One call: what it has read and not yet judged, what it will try to exchange, or how it ended. */
  datatype Call =
    | NotCalled
    | Judging(observed: nat)
    | Exchanging(observed: nat)
    | Refused
    | Live
    | Dropped
  {
    predicate IsRunning() {
      Judging? || Exchanging?
    }
  }

  datatype State = State(active: nat, calls: seq<Call>)

  /** `Fail` is an exchange that fails although the counter is as observed, as the weak form may. */
  datatype Step = Load | Judge | Exchange | Fail | Drop

  function Perform(s: State, i: nat, step: Step): Option<State>
    requires i < |s.calls|
  {
    match (s.calls[i], step)
    case (NotCalled, Load) => Some(s.(calls := s.calls[i := Judging(s.active)]))
    case (Judging(observed), Judge) =>
      if observed >= MAX_ACTIVE_SESSIONS then Some(s.(calls := s.calls[i := Refused]))
      else Some(s.(calls := s.calls[i := Exchanging(observed)]))
    case (Exchanging(observed), Exchange) =>
      if s.active == observed then Some(State(observed + 1, s.calls[i := Live]))
      else Some(s.(calls := s.calls[i := Judging(s.active)]))
    case (Exchanging(_), Fail) => Some(s.(calls := s.calls[i := Judging(s.active)]))
    case (Live, Drop) => if s.active == 0 then None else Some(State(s.active - 1, s.calls[i := Dropped]))
    case (_, _) => None
  }

  datatype Action = Action(call: nat, step: Step)

  ghost predicate IsInterleaving(states: seq<State>, actions: seq<Action>) {
    && |states| == |actions| + 1
    && states[0].active == 0 && (forall i :: 0 <= i < |states[0].calls| ==> states[0].calls[i].NotCalled?)
    && forall k :: 0 <= k < |actions| ==>
         && actions[k].call < |states[k].calls|
         && Perform(states[k], actions[k].call, actions[k].step) == Some(states[k + 1])
  }

  function LiveCount(calls: seq<Call>): nat {
    if calls == [] then 0 else LiveCount(calls[..|calls| - 1]) + if calls[|calls| - 1].Live? then 1 else 0
  }

  lemma {:induction false} CountAfter(calls: seq<Call>, i: nat, c: Call)
    requires i < |calls|
    ensures LiveCount(calls[i := c]) + (if calls[i].Live? then 1 else 0) == LiveCount(calls) + if c.Live? then 1 else 0
  {
    var last := |calls| - 1;
    if i == last {
      assert calls[i := c][..last] == calls[..last];
    } else {
      CountAfter(calls[..last], i, c);
      assert calls[i := c][..last] == calls[..last][i := c];
    }
  }

  lemma {:induction false} NoneLive(calls: seq<Call>)
    requires forall i :: 0 <= i < |calls| ==> calls[i].NotCalled?
    ensures LiveCount(calls) == 0
  {
    if calls != [] {
      NoneLive(calls[..|calls| - 1]);
    }
  }

  ghost predicate Inv(s: State) {
    && s.active == LiveCount(s.calls) <= MAX_ACTIVE_SESSIONS
    && forall i :: 0 <= i < |s.calls| && s.calls[i].Exchanging? ==> s.calls[i].observed < MAX_ACTIVE_SESSIONS
  }

  lemma StepKeepsInv(s: State, i: nat, step: Step, next: State)
    requires Inv(s) && i < |s.calls| && Perform(s, i, step) == Some(next)
    ensures Inv(next) && |next.calls| == |s.calls|
  {
    CountAfter(s.calls, i, next.calls[i]);
  }

  /** At every instant the counter is the number of live guards, and there are never more than sixteen. */
  lemma {:induction false} CounterIsLiveGuards(states: seq<State>, actions: seq<Action>, k: nat)
    requires IsInterleaving(states, actions) && k <= |actions|
    ensures Inv(states[k]) && |states[k].calls| == |states[0].calls|
    ensures states[k].active == LiveCount(states[k].calls) <= 16
  {
    if k == 0 {
      NoneLive(states[0].calls);
    } else {
      CounterIsLiveGuards(states, actions, k - 1);
      StepKeepsInv(states[k - 1], actions[k - 1].call, actions[k - 1].step, states[k]);
    }
  }

  /** At some moment up to now, while the call was running, the counter had this value. */
  ghost predicate Saw(states: seq<State>, i: nat, k: nat, value: nat) {
    exists m :: 0 <= m <= k && m < |states| && SawAt(states[m], i, value)
  }

  predicate SawAt(s: State, i: nat, value: nat) {
    i < |s.calls| && s.calls[i].IsRunning() && s.active == value
  }

  lemma SawStays(states: seq<State>, i: nat, k: nat, value: nat)
    requires 0 < k < |states| && Saw(states, i, k - 1, value)
    ensures Saw(states, i, k, value)
  {
    var m :| 0 <= m <= k - 1 && m < |states| && SawAt(states[m], i, value);
  }

  /** A step touches its own call only; a running call has just read the counter or keeps what it read. */
  lemma StepReads(s: State, j: nat, step: Step, next: State, i: nat)
    requires j < |s.calls| && Perform(s, j, step) == Some(next) && i < |s.calls|
    ensures i < |next.calls|
    ensures next.calls[i].IsRunning() ==>
              SawAt(next, i, next.calls[i].observed)
              || (s.calls[i].IsRunning() && s.calls[i].observed == next.calls[i].observed)
    ensures next.calls[i].Refused? ==>
              s.calls[i].Refused? || (s.calls[i].Judging? && s.calls[i].observed >= MAX_ACTIVE_SESSIONS)
  {
  }

  /** Whatever a running call has read, the counter had that value while the call was running. */
  lemma {:induction false} ReadsAreCurrent(states: seq<State>, actions: seq<Action>, k: nat, i: nat)
    requires IsInterleaving(states, actions) && k <= |actions| && i < |states[0].calls|
    ensures i < |states[k].calls|
    ensures states[k].calls[i].IsRunning() ==> Saw(states, i, k, states[k].calls[i].observed)
  {
    if k > 0 {
      ReadsAreCurrent(states, actions, k - 1, i);
      StepReads(states[k - 1], actions[k - 1].call, actions[k - 1].step, states[k], i);
      if states[k].calls[i].IsRunning() && !SawAt(states[k], i, states[k].calls[i].observed) {
        SawStays(states, i, k, states[k].calls[i].observed);
      }
    }
  }

  /** A refused call ran at an instant when all sixteen sessions were live. */
  lemma {:induction false} RefusedWhenFull(states: seq<State>, actions: seq<Action>, k: nat, i: nat)
    requires IsInterleaving(states, actions) && k <= |actions| && i < |states[0].calls| == |states[k].calls|
    requires states[k].calls[i].Refused?
    ensures exists m :: 0 <= m <= k && i < |states[m].calls| && states[m].calls[i].IsRunning()
                        && LiveCount(states[m].calls) == 16
  {
    CounterIsLiveGuards(states, actions, k - 1);
    StepReads(states[k - 1], actions[k - 1].call, actions[k - 1].step, states[k], i);
    if states[k - 1].calls[i].Refused? {
      RefusedWhenFull(states, actions, k - 1, i);
    } else {
      ReadsAreCurrent(states, actions, k - 1, i);
      var m :| 0 <= m <= k - 1 && m < |states| && SawAt(states[m], i, states[k - 1].calls[i].observed);
      CounterIsLiveGuards(states, actions, m);
    }
  }

  /** A call that succeeds takes a free session: fewer than sixteen were live just before. */
  lemma SucceedsWhenFree(states: seq<State>, actions: seq<Action>, k: nat)
    requires IsInterleaving(states, actions) && k < |actions|
    requires actions[k].call < |states[k + 1].calls| && states[k + 1].calls[actions[k].call].Live?
    ensures LiveCount(states[k].calls) < 16
    ensures LiveCount(states[k + 1].calls) == LiveCount(states[k].calls) + 1
  {
    CounterIsLiveGuards(states, actions, k);
    CounterIsLiveGuards(states, actions, k + 1);
  }

  /** A guard can always be dropped, and a running call can always go on. */
  lemma NeverBlocked(states: seq<State>, actions: seq<Action>, k: nat, i: nat)
    requires IsInterleaving(states, actions) && k <= |actions| && i < |states[k].calls|
    ensures states[k].calls[i].Live? ==> Perform(states[k], i, Drop).Some?
    ensures states[k].calls[i].Judging? ==> Perform(states[k], i, Judge).Some?
    ensures states[k].calls[i].Exchanging? ==> Perform(states[k], i, Exchange).Some?
  {
    CounterIsLiveGuards(states, actions, k);
    LiveIsCounted(states[k].calls, i);
  }

  lemma {:induction false} LiveIsCounted(calls: seq<Call>, i: nat)
    requires i < |calls|
    ensures calls[i].Live? ==> LiveCount(calls) >= 1
  {
    if i < |calls| - 1 {
      LiveIsCounted(calls[..|calls| - 1], i);
    }
  }

  // ----- the shared counter -----

  class Limiter {
    var active: nat
    var calls: seq<Call>

    function Value(): State
      reads this
    {
      State(active, calls)
    }

    constructor (callers: nat)
      ensures active == 0 && |calls| == callers && forall i :: 0 <= i < callers ==> calls[i].NotCalled?
    {
      active, calls := 0, seq(callers, _ => NotCalled);
    }

    /** `compare_exchange_weak`: on failure the call reads the counter again. */
    method CompareExchange(i: nat, observed: nat, fails: bool)
      requires i < |calls| && calls[i] == Exchanging(observed)
      modifies this
      ensures Perform(old(Value()), i, if fails then Fail else Exchange) == Some(Value())
    {
      if !fails && active == observed {
        active := observed + 1;
        calls := calls[i := Live];
      } else {
        calls := calls[i := Judging(active)];
      }
    }

    /** The next thing a call does, if this is it. */
    method Go(i: nat, step: Step) returns (went: bool)
      requires i < |calls| && Inv(Value())
      modifies this
      ensures Perform(old(Value()), i, step) == if went then Some(Value()) else None
      ensures !went ==> Value() == old(Value())
    {
      match (calls[i], step)
      case (NotCalled, Load) => calls := calls[i := Judging(active)]; return true;
      case (Judging(observed), Judge) =>
        calls := calls[i := if observed >= MAX_ACTIVE_SESSIONS then Refused else Exchanging(observed)];
        return true;
      case (Exchanging(observed), Exchange) => CompareExchange(i, observed, false); return true;
      case (Exchanging(observed), Fail) => CompareExchange(i, observed, true); return true;
      case (Live, Drop) =>
        LiveIsCounted(calls, i);
        active := active - 1;
        calls := calls[i := Dropped];
        return true;
      case (_, _) => return false;
    }
  }

  /** Any interleaving of any number of calls, each choice taken when its call can take it. */
  method Interleave(callers: nat, choices: seq<Action>)
    returns (limiter: Limiter, ghost states: seq<State>, ghost actions: seq<Action>)
    requires forall k :: 0 <= k < |choices| ==> choices[k].call < callers
    ensures IsInterleaving(states, actions) && limiter.Value() == states[|actions|]
    ensures limiter.active == LiveCount(limiter.calls) <= MAX_ACTIVE_SESSIONS
  {
    limiter := new Limiter(callers);
    states, actions := [limiter.Value()], [];
    NoneLive(limiter.calls);
    for k := 0 to |choices|
      invariant fresh(limiter) && |limiter.calls| == callers
      invariant IsInterleaving(states, actions) && limiter.Value() == states[|actions|] && Inv(limiter.Value())
    {
      ghost var before := limiter.Value();
      var went := limiter.Go(choices[k].call, choices[k].step);
      if went {
        StepKeepsInv(before, choices[k].call, choices[k].step, limiter.Value());
        Extend(states, actions, choices[k], limiter.Value());
        states, actions := states + [limiter.Value()], actions + [choices[k]];
      }
    }
  }

  lemma Extend(states: seq<State>, actions: seq<Action>, action: Action, next: State)
    requires IsInterleaving(states, actions) && action.call < |states[|actions|].calls|
    requires Perform(states[|actions|], action.call, action.step) == Some(next)
    ensures IsInterleaving(states + [next], actions + [action])
  {
    var longer, more := states + [next], actions + [action];
    forall k | 0 <= k < |more|
      ensures more[k].call < |longer[k].calls|
      ensures Perform(longer[k], more[k].call, more[k].step) == Some(longer[k + 1])
    {
      if k < |actions| {
        assert longer[k] == states[k] && longer[k + 1] == states[k + 1] && more[k] == actions[k];
      }
    }
  }
}
