/**
  What the native event dispatcher guarantees on every interleaving of its threads.
 */
module DispatcherProtocol {
  import opened EventDispatcher

  /**
    For every interleaving of emitting threads, closing and draining: while active, the
    delivered messages, the batch being drained and the pending ones are exactly the
    accepted messages in order, and pending messages have exactly one dispatch on its way.
   */
  lemma ProtocolHoldsOnEveryRun(steps: seq<Step>)
    requires AllReliable(steps)
    ensures Protocol(Run(INITIAL, steps))
  {
    RunKeepsProtocol(INITIAL, steps);
  }

  lemma {:induction false} RunKeepsProtocol(s: State, steps: seq<Step>)
    requires Protocol(s) && AllReliable(steps)
    ensures Protocol(Run(s, steps))
  {
    if steps != [] {
      RunKeepsProtocol(s, steps[..|steps| - 1]);
      StepKeepsProtocol(Run(s, steps[..|steps| - 1]), steps[|steps| - 1]);
    }
  }

  lemma {:induction false} RunAppend(s: State, a: seq<Step>, b: seq<Step>)
    ensures Run(s, a + b) == Run(Run(s, a), b)
    decreases |b|
  {
    if b == [] {
      assert a + b == a;
    } else {
      assert (a + b)[..|a + b| - 1] == a + b[..|b| - 1];
      RunAppend(s, a, b[..|b| - 1]);
    }
  }

  ghost predicate OnlyJsThread(steps: seq<Step>) {
    forall i :: 0 <= i < |steps| ==> steps[i] == TakeItem || steps[i] == CallbackReturns(true)
  }

  /** The JavaScript thread alone can always deliver everything accepted so far. */
  lemma {:induction false} JsThreadDeliversEverything(s: State) returns (steps: seq<Step>)
    requires Protocol(s) && s.active
    ensures OnlyJsThread(steps)
    ensures Run(s, steps).delivered == s.emitted
    decreases |s.queue| + |s.pendingEvents|, if s.draining.Some? then 1 else 0
  {
    if s.draining.None? && s.pendingEvents == [] {
      steps := [];
      assert s.delivered == s.delivered + Batch(s) + s.pendingEvents;
      return;
    }
    var step := if s.draining.Some? then CallbackReturns(true) else TakeItem;
    var t := Next(s, step);
    StepKeepsProtocol(s, step);
    if s.draining.Some? && s.pendingEvents != [] {
      // the batch is done and the next dispatch is queued: let it start as well
      steps := DeliverQueued(t);
    } else {
      if s.draining.None? {
        assert s.queue != [];
      }
      steps := JsThreadDeliversEverything(t);
    }
    steps := [step] + steps;
    RunAppend(s, [step], steps[1..]);
    assert [step][..0] == [] && steps == [step] + steps[1..];
  }

  /** The same from a state in which no callback runs; the queue shrinks to the drain. */
  lemma {:induction false} DeliverQueued(s: State) returns (steps: seq<Step>)
    requires Protocol(s) && s.active && s.draining.None? && s.pendingEvents != []
    ensures OnlyJsThread(steps)
    ensures Run(s, steps).delivered == s.emitted
    decreases |s.queue|
  {
    var t := Next(s, TakeItem);
    StepKeepsProtocol(s, TakeItem);
    assert s.queue != [];
    if t.draining.Some? {
      var u := Next(t, CallbackReturns(true));
      assert [TakeItem][..0] == [];
      steps := [TakeItem] + [CallbackReturns(true)];
      assert steps[..1] == [TakeItem];
      assert Run(s, [TakeItem]) == t;
      assert Run(s, steps) == u;
      assert u.delivered == s.delivered + s.pendingEvents == s.delivered + Batch(s) + s.pendingEvents;
    } else {
      var rest := DeliverQueued(t);
      steps := [TakeItem] + rest;
      RunAppend(s, [TakeItem], rest);
      assert [TakeItem][..0] == [];
    }
  }

  // ---- a callback that throws -----------------------------------------------

  /** A dispatch is recorded as scheduled, but none is queued or running. */
  ghost predicate Wedged(s: State) {
    InFlight(s) == 0 && (s.active ==> s.dispatchScheduled)
  }

  lemma StepKeepsWedged(s: State, step: Step)
    requires Wedged(s)
    ensures Wedged(Next(s, step)) && Next(s, step).delivered == s.delivered
  {
    match step
    case Emit(e, _) => DrainsAppend(s.queue, Direct(e));
    case TakeItem =>
      if s.queue != [] {
        DrainsTail(s.queue);
      }
    case _ =>
  }

  lemma {:induction false} WedgedForever(s: State, steps: seq<Step>)
    requires Wedged(s)
    ensures Wedged(Run(s, steps)) && Run(s, steps).delivered == s.delivered
  {
    if steps != [] {
      WedgedForever(s, steps[..|steps| - 1]);
      StepKeepsWedged(Run(s, steps[..|steps| - 1]), steps[|steps| - 1]);
    }
  }

  /**
    What the hypothesis on the callback buys: once a callback throws, no continuation of
    the run, reliable or not, ever delivers another message.
   */
  lemma ThrowingCallbackEndsDelivery(s: State, handled: nat, steps: seq<Step>)
    requires Protocol(s) && s.draining.Some? && handled <= |s.draining.value|
    ensures Run(Next(s, CallbackThrows(handled)), steps).delivered == s.delivered + s.draining.value[..handled]
  {
    WedgedForever(Next(s, CallbackThrows(handled)), steps);
  }

  // ---- messages and the other events ----------------------------------------

  /**
    A drain queued before item number `position` is still in the queue, or `need` messages
    have been delivered or are in the running batch.
   */
  ghost predicate Covered(s: State, position: nat, need: nat) {
    || need <= |s.delivered| + |Batch(s)|
    || (s.active && need <= |s.delivered| + |Batch(s)| + |s.pendingEvents| && s.taken <= position
        && exists i :: 0 <= i < |s.queue| && s.taken + i < position && s.queue[i].DrainRequest?)
  }

  lemma StepKeepsCovered(s: State, step: Step, position: nat, need: nat)
    requires Protocol(s) && Reliable(step) && step != Close && Covered(s, position, need)
    ensures Covered(Next(s, step), position, need)
  {
    var t := Next(s, step);
    if !(need <= |s.delivered| + |Batch(s)|) {
      var i :| 0 <= i < |s.queue| && s.taken + i < position && s.queue[i].DrainRequest?;
      match step
      case Emit(e, _) =>
        assert t.queue[i] == s.queue[i];
      case TakeItem =>
        if s.draining.None? {
          if i > 0 && s.queue[0].Direct? {
            assert t.queue[i - 1] == s.queue[i];
          } else if i > 0 {
            TwoDrains(s.queue, i);
          }
        }
      case CallbackReturns(_) =>
        assert t.queue[i] == s.queue[i];
    }
  }

  lemma {:induction false} DrainPresent(queue: seq<Item>, i: nat)
    requires i < |queue| && queue[i].DrainRequest?
    ensures Drains(queue) >= 1
  {
    if i < |queue| - 1 {
      DrainPresent(queue[..|queue| - 1], i);
    }
  }

  lemma TwoDrains(queue: seq<Item>, i: nat)
    requires 0 < i < |queue| && queue[0].DrainRequest? && queue[i].DrainRequest?
    ensures Drains(queue) >= 2
  {
    DrainsTail(queue);
    DrainPresent(queue[1..], i - 1);
  }

  lemma {:induction false} RunKeepsCovered(s: State, steps: seq<Step>, position: nat, need: nat)
    requires Protocol(s) && AllReliable(steps) && Close !in steps && Covered(s, position, need)
    ensures Protocol(Run(s, steps)) && Covered(Run(s, steps), position, need)
  {
    if steps != [] {
      RunKeepsCovered(s, steps[..|steps| - 1], position, need);
      StepKeepsProtocol(Run(s, steps[..|steps| - 1]), steps[|steps| - 1]);
      StepKeepsCovered(Run(s, steps[..|steps| - 1]), steps[|steps| - 1], position, need);
    }
  }

  /** The single drain, when there is one, lies in the queue. */
  lemma {:induction false} FindDrain(queue: seq<Item>) returns (i: nat)
    requires Drains(queue) >= 1
    ensures i < |queue| && queue[i].DrainRequest?
  {
    if queue[|queue| - 1].DrainRequest? {
      i := |queue| - 1;
    } else {
      i := FindDrain(queue[..|queue| - 1]);
    }
  }

  /**
    An event emitted while no callback runs, or while no message is pending, overtakes no
    message: whatever happens next, once its queue item is taken every message accepted
    before it has been delivered or is in the running batch.
   */
  lemma DirectEventDoesNotOvertake(s: State, e: Event, steps: seq<Step>)
    requires Protocol(s) && s.active && !e.isMessage && !MayBePassed(s)
    requires AllReliable(steps) && Close !in steps
    ensures var t := Run(Next(s, Emit(e, true)), steps);
            && Protocol(t) && Covered(t, s.taken + |s.queue|, |s.emitted|)
            && (t.taken > s.taken + |s.queue| ==> |t.delivered| + |Batch(t)| >= |s.emitted|)
  {
    var start := Next(s, Emit(e, true));
    StepKeepsProtocol(s, Emit(e, true));
    if s.draining.None? && s.pendingEvents != [] {
      var i := FindDrain(s.queue);
      assert start.queue[i] == s.queue[i];
    }
    RunKeepsCovered(start, steps, s.taken + |s.queue|, |s.emitted|);
  }

  // ---- exactly when an event overtakes --------------------------------------

  /** A callback is running and messages wait behind it. */
  ghost predicate MayBePassed(s: State) { s.draining.Some? && s.pendingEvents != [] }

  /** Item number `position` is this event, and nothing has been taken beyond it. */
  ghost predicate Waiting(s: State, e: Event, position: nat) {
    && s.taken <= position < s.taken + |s.queue|
    && s.queue[position - s.taken] == Direct(e)
  }

  /** The item waits until it is taken, whatever else happens. */
  lemma StepKeepsWaiting(s: State, step: Step, e: Event, position: nat)
    requires s.taken <= position ==> Waiting(s, e, position)
    ensures var t := Next(s, step); t.taken <= position ==> Waiting(t, e, position)
  {
    match step
    case Emit(_, _) =>
    case Close =>
    case TakeItem =>
    case CallbackReturns(_) =>
    case CallbackThrows(_) =>
  }

  lemma {:induction false} RunKeepsWaiting(s: State, steps: seq<Step>, e: Event, position: nat)
    requires s.taken <= position ==> Waiting(s, e, position)
    ensures var t := Run(s, steps); t.taken <= position ==> Waiting(t, e, position)
  {
    if steps != [] {
      RunKeepsWaiting(s, steps[..|steps| - 1], e, position);
      StepKeepsWaiting(Run(s, steps[..|steps| - 1]), steps[|steps| - 1], e, position);
    }
  }

  /** Every drain is queued behind item number `position`; no message beyond `done` has been drained. */
  ghost predicate DrainsBehind(s: State, position: nat, done: nat) {
    && s.active && s.dispatchScheduled && |s.delivered| + |Batch(s)| == done
    && position < s.taken + |s.queue|
    && s.pendingEvents != []
    && (forall i :: 0 <= i < |s.queue| && s.taken + i <= position ==> s.queue[i].Direct?)
  }

  lemma StepKeepsDrainsBehind(s: State, step: Step, position: nat, done: nat)
    requires Reliable(step) && step != Close
    requires s.taken <= position ==> DrainsBehind(s, position, done)
    ensures var t := Next(s, step); t.taken <= position ==> DrainsBehind(t, position, done)
  {
    var t := Next(s, step);
    if t.taken <= position {
      match step
      case Emit(_, _) =>
      case TakeItem =>
        if s.draining.None? && s.queue != [] {
          assert s.queue[0].Direct?;
          forall i | 0 <= i < |t.queue| && t.taken + i <= position ensures t.queue[i].Direct? {
            assert t.queue[i] == s.queue[i + 1];
          }
        }
      case CallbackReturns(_) =>
    }
  }

  lemma {:induction false} RunKeepsDrainsBehind(s: State, steps: seq<Step>, position: nat, done: nat)
    requires AllReliable(steps) && Close !in steps
    requires s.taken <= position ==> DrainsBehind(s, position, done)
    ensures var t := Run(s, steps); t.taken <= position ==> DrainsBehind(t, position, done)
  {
    if steps != [] {
      RunKeepsDrainsBehind(s, steps[..|steps| - 1], position, done);
      StepKeepsDrainsBehind(Run(s, steps[..|steps| - 1]), steps[|steps| - 1], position, done);
    }
  }

  lemma {:induction false} NoDrains(queue: seq<Item>)
    requires Drains(queue) == 0
    ensures forall i :: 0 <= i < |queue| ==> queue[i].Direct?
  {
    forall i | 0 <= i < |queue| ensures queue[i].Direct? {
      if queue[i].DrainRequest? {
        DrainPresent(queue, i);
      }
    }
  }

  /** While a callback runs with messages behind it, the event's item precedes their drain. */
  lemma DrainStaysBehind(s: State, e: Event, steps: seq<Step>)
    requires Protocol(s) && s.active && !e.isMessage && MayBePassed(s)
    requires AllReliable(steps) && Close !in steps
    ensures var t := Run(Next(s, Emit(e, true)), steps);
            t.taken <= s.taken + |s.queue| ==> DrainsBehind(t, s.taken + |s.queue|, |s.delivered| + |Batch(s)|)
  {
    var start := Next(s, Emit(e, true));
    NoDrains(s.queue);
    RunKeepsDrainsBehind(start, steps, s.taken + |s.queue|, |s.delivered| + |Batch(s)|);
  }

  lemma {:induction false} EmittedGrows(s: State, steps: seq<Step>)
    ensures s.emitted <= Run(s, steps).emitted
  {
    if steps != [] {
      EmittedGrows(s, steps[..|steps| - 1]);
    }
  }

  /**
    The exact condition: on every run up to the moment the event's item is next to be taken,
    the messages accepted before the event have all been delivered, unless a callback was
    running with messages waiting behind it when the event was emitted, and then they have not.
   */
  lemma EventOvertakesExactly(s: State, e: Event, steps: seq<Step>)
    requires Protocol(s) && s.active && !e.isMessage
    requires AllReliable(steps) && Close !in steps
    requires var t := Run(Next(s, Emit(e, true)), steps); t.taken == s.taken + |s.queue| && t.draining.None?
    ensures var t := Run(Next(s, Emit(e, true)), steps);
            && t.queue != [] && t.queue[0] == Direct(e)
            && (s.emitted <= t.delivered <==> !MayBePassed(s))
  {
    var start := Next(s, Emit(e, true));
    var t := Run(start, steps);
    var position := s.taken + |s.queue|;
    RunKeepsWaiting(start, steps, e, position);
    EmittedGrows(start, steps);
    StepKeepsProtocol(s, Emit(e, true));
    if MayBePassed(s) {
      DrainStaysBehind(s, e, steps);
      assert |s.delivered + Batch(s) + s.pendingEvents| == |s.emitted|;
    } else {
      DirectEventDoesNotOvertake(s, e, steps);
      DeliveredPrefix(t, s.emitted);
    }
  }

  lemma DeliveredPrefix(t: State, emitted: seq<Event>)
    requires Protocol(t) && t.draining.None? && emitted <= t.emitted && |emitted| <= |t.delivered|
    ensures emitted <= t.delivered
  {
    assert t.delivered <= t.emitted;
  }

  /** That moment always comes: the JavaScript thread alone gets to the item. */
  lemma {:induction false} EventIsReached(s: State, e: Event, position: nat) returns (steps: seq<Step>)
    requires Waiting(s, e, position)
    ensures OnlyJsThread(steps)
    ensures var t := Run(s, steps); t.taken == position && t.draining.None?
    decreases position - s.taken, if s.draining.Some? then 1 else 0
  {
    if s.taken == position && s.draining.None? {
      return [];
    }
    var step := if s.draining.Some? then CallbackReturns(true) else TakeItem;
    StepKeepsWaiting(s, step, e, position);
    var rest := EventIsReached(Next(s, step), e, position);
    RunAppend(s, [step], rest);
    assert [step][..0] == [];
    steps := [step] + rest;
  }

  /**
    Overtaking happens: from every state with a callback running and messages behind it, the
    JavaScript thread alone comes to an event emitted there before it has delivered them.
   */
  lemma EventOvertakesDuringCallback(s: State, e: Event) returns (steps: seq<Step>)
    requires Protocol(s) && s.active && !e.isMessage && MayBePassed(s)
    ensures OnlyJsThread(steps)
    ensures var t := Run(Next(s, Emit(e, true)), steps);
            && t.taken == s.taken + |s.queue| && t.draining.None? && t.queue != [] && t.queue[0] == Direct(e)
            && !(s.emitted <= t.delivered) && t.delivered == s.delivered + Batch(s)
  {
    steps := EventIsReached(Next(s, Emit(e, true)), e, s.taken + |s.queue|);
    EventOvertakesExactly(s, e, steps);
    DrainStaysBehind(s, e, steps);
    var start := Next(s, Emit(e, true));
    StepKeepsProtocol(s, Emit(e, true));
    RunKeepsProtocol(start, steps);
    EmittedGrows(start, steps);
    SamePrefix(Run(start, steps).delivered, s.delivered + Batch(s), Run(start, steps).emitted);
  }

  lemma SamePrefix(a: seq<Event>, b: seq<Event>, whole: seq<Event>)
    requires a <= whole && b <= whole && |a| == |b|
    ensures a == b
  {
  }

  /** Such a state is within reach: a message, its callback, and a second message meanwhile. */
  lemma CallbackWithPendingIsReachable(m: Event, n: Event) returns (steps: seq<Step>, s: State)
    requires m.isMessage && n.isMessage
    ensures AllReliable(steps) && s == Run(INITIAL, steps)
    ensures Protocol(s) && s.active && MayBePassed(s) && s.emitted == [m, n] && s.delivered + Batch(s) == [m]
  {
    steps := [];
    s := RunOneMore(INITIAL, steps, Emit(m, true));
    steps := steps + [Emit(m, true)];
    s := RunOneMore(INITIAL, steps, TakeItem);
    steps := steps + [TakeItem];
    s := RunOneMore(INITIAL, steps, Emit(n, true));
    steps := steps + [Emit(n, true)];
    ProtocolHoldsOnEveryRun(steps);
  }

  /**
    A run from the start in which the event passes the second message: the event's item is the
    next to be taken, and of the two messages emitted before it only the first is delivered.
   */
  lemma DirectEventOvertakesDuringCallback(m: Event, n: Event, e: Event) returns (before: seq<Step>, steps: seq<Step>)
    requires m.isMessage && n.isMessage && !e.isMessage
    ensures AllReliable(before) && AllReliable(steps)
    ensures var s := Run(INITIAL, before);
            var t := Run(INITIAL, before + [Emit(e, true)] + steps);
            && s.emitted == [m, n]
            && t.draining.None? && t.queue != [] && t.queue[0] == Direct(e) && t.delivered == [m]
  {
    var s;
    before, s := CallbackWithPendingIsReachable(m, n);
    steps := EventOvertakesDuringCallback(s, e);
    RunAppend(INITIAL, before, [Emit(e, true)]);
    RunAppend(INITIAL, before + [Emit(e, true)], steps);
    assert [Emit(e, true)][..0] == [];
  }

  lemma RunOneMore(s: State, steps: seq<Step>, step: Step) returns (t: State)
    ensures t == Next(Run(s, steps), step) == Run(s, steps + [step])
  {
    t := Next(Run(s, steps), step);
    assert (steps + [step])[..|steps|] == steps;
  }
}
