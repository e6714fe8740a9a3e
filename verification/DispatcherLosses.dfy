/**
  The native event dispatcher when the thread-safe function's queue refuses items: what is
  lost then, and that nothing else is lost, repeated, reordered or left waiting.
 */
module DispatcherLosses {
  import opened Subsequences
  import opened EventDispatcher

  /** Callbacks return; the queue may refuse anything. */
  ghost predicate NoThrow(steps: seq<Step>) {
    forall i :: 0 <= i < |steps| ==> !steps[i].CallbackThrows?
  }

  /** The messages that have not been lost. */
  ghost function Surviving(s: State): seq<Event> { s.delivered + Batch(s) + s.pendingEvents }

  ghost predicate WakeInv(s: State) {
    && InFlight(s) <= 1
    && (s.active ==> InFlight(s) == if s.dispatchScheduled then 1 else 0)
    && (s.active && s.pendingEvents != [] ==> s.dispatchScheduled)
    && (!s.active ==> s.pendingEvents == [])
  }

  lemma EmitKeepsWake(s: State, e: Event, queued: bool)
    requires WakeInv(s)
    ensures WakeInv(EmitMessage(s, e, queued)) && WakeInv(AfterEmitDirect(s, e, queued))
  {
    DrainsAppend(s.queue, DrainRequest);
    DrainsAppend(s.queue, Direct(e));
  }

  lemma StepKeepsWake(s: State, step: Step)
    requires WakeInv(s) && !step.CallbackThrows?
    ensures WakeInv(Next(s, step))
  {
    match step
    case Emit(e, queued) => EmitKeepsWake(s, e, queued);
    case Close =>
    case TakeItem =>
      if s.draining.None? && s.queue != [] {
        DrainsTail(s.queue);
      }
    case CallbackReturns(_) => DrainsAppend(s.queue, DrainRequest);
  }

  lemma {:induction false} RunKeepsWake(steps: seq<Step>)
    requires NoThrow(steps)
    ensures WakeInv(Run(INITIAL, steps))
  {
    if steps != [] {
      RunKeepsWake(steps[..|steps| - 1]);
      StepKeepsWake(Run(INITIAL, steps[..|steps| - 1]), steps[|steps| - 1]);
    }
  }

  /**
    Each step loses exactly this: a message whose own dispatch is refused, the messages that
    wait when the next dispatch is refused, and those that wait when the dispatcher is closed.
   */
  lemma RefusalLosesExactly(s: State, step: Step)
    requires WakeInv(s) && !step.CallbackThrows?
    ensures var t := Next(s, step);
            Surviving(t) ==
              match step
              case Emit(e, queued) =>
                if e.isMessage && s.active && (s.dispatchScheduled || queued) then Surviving(s) + [e] else Surviving(s)
              case Close => s.delivered + Batch(s)
              case CallbackReturns(queued) =>
                if s.draining.Some? && !queued then s.delivered + Batch(s) else Surviving(s)
              case _ => Surviving(s)
  {
    match step
    case Emit(e, queued) => EmitLosesExactly(s, e, queued);
    case Close => assert s.delivered + Batch(s) + [] == s.delivered + Batch(s);
    case TakeItem => assert s.delivered + [] + s.pendingEvents == s.delivered + s.pendingEvents;
    case CallbackReturns(queued) => ReturnLosesExactly(s, queued);
  }

  lemma EmitLosesExactly(s: State, e: Event, queued: bool)
    requires WakeInv(s)
    ensures Surviving(EmitMessage(s, e, queued)) ==
              if s.active && (s.dispatchScheduled || queued) then Surviving(s) + [e] else Surviving(s)
    ensures Surviving(AfterEmitDirect(s, e, queued)) == Surviving(s)
  {
    assert s.delivered + Batch(s) + (s.pendingEvents + [e]) == Surviving(s) + [e];
  }

  lemma ReturnLosesExactly(s: State, queued: bool)
    requires WakeInv(s)
    ensures Surviving(Next(s, CallbackReturns(queued))) ==
              if s.draining.Some? && !queued then s.delivered + Batch(s) else Surviving(s)
  {
    if s.draining.Some? {
      assert s.delivered + s.draining.value + [] == s.delivered + s.draining.value;
    }
  }

  lemma {:induction false} PrefixIsSubsequence(a: seq<Event>, b: seq<Event>)
    ensures Subsequence(a, a + b)
    decreases |a|
  {
    if a == [] {
    } else {
      var n := |a| - 1;
      PrefixIsSubsequence(a[..n], []);
      assert a[..n] + [] == a[..n] && a[..n] + [a[n]] == a;
      SubsequenceAppend(a[..n], a[..n], a[n]);
      SubsequenceExtends(a, a, b);
    }
  }

  lemma {:induction false} SubsequenceTransitive(a: seq<Event>, b: seq<Event>, c: seq<Event>)
    requires Subsequence(a, b) && Subsequence(b, c)
    ensures Subsequence(a, c)
    decreases |c|
  {
    if a != [] {
      var l, m, n := |a| - 1, |b| - 1, |c| - 1;
      if Subsequence(b, c[..n]) {
        SubsequenceTransitive(a, b, c[..n]);
      } else if Subsequence(a, b[..m]) {
        SubsequenceTransitive(a, b[..m], c[..n]);
      } else {
        SubsequenceTransitive(a[..l], b[..m], c[..n]);
      }
    }
  }

  /**
    On every run in which callbacks return, whatever the queue refuses: what is delivered, being
    delivered and pending are accepted messages in order, each at most once, and while the
    dispatcher is active pending messages have their dispatch on its way.
   */
  lemma {:induction false} RefusalsKeepOrder(steps: seq<Step>)
    requires NoThrow(steps)
    ensures var s := Run(INITIAL, steps);
            Subsequence(Surviving(s), s.emitted) && (s.active && s.pendingEvents != [] ==> InFlight(s) == 1)
  {
    RunKeepsWake(steps);
    if steps != [] {
      var before, step := steps[..|steps| - 1], steps[|steps| - 1];
      var s := Run(INITIAL, before);
      RefusalsKeepOrder(before);
      RunKeepsWake(before);
      StepKeepsSurvivors(s, step);
    }
  }

  lemma StepKeepsSurvivors(s: State, step: Step)
    requires WakeInv(s) && !step.CallbackThrows? && Subsequence(Surviving(s), s.emitted)
    ensures Subsequence(Surviving(Next(s, step)), Next(s, step).emitted)
  {
    RefusalLosesExactly(s, step);
    if step.Emit? {
      SubsequenceAppend(Surviving(s), s.emitted, step.event);
    } else {
      PrefixIsSubsequence(s.delivered + Batch(s), s.pendingEvents);
      SubsequenceTransitive(s.delivered + Batch(s), Surviving(s), s.emitted);
      assert Next(s, step).emitted == s.emitted;
    }
  }

  // ---- other events ---------------------------------------------------------

  ghost function Directs(queue: seq<Item>): seq<Event> {
    if queue == [] then []
    else
      var n := |queue| - 1;
      Directs(queue[..n]) + if queue[n].Direct? then [queue[n].event] else []
  }

  /** The events the queue took. */
  ghost function Taken(s: State, step: Step): seq<Event> {
    if step.Emit? && !step.event.isMessage && s.active && step.queued then [step.event] else []
  }

  ghost function AllTaken(steps: seq<Step>): seq<Event> {
    if steps == [] then []
    else AllTaken(steps[..|steps| - 1]) + Taken(Run(INITIAL, steps[..|steps| - 1]), steps[|steps| - 1])
  }

  lemma {:induction false} DirectsAppend(queue: seq<Item>, item: Item)
    ensures Directs(queue + [item]) == Directs(queue) + if item.Direct? then [item.event] else []
  {
    assert (queue + [item])[..|queue|] == queue;
  }

  lemma {:induction false} DirectsTail(queue: seq<Item>)
    requires queue != []
    ensures Directs(queue) == (if queue[0].Direct? then [queue[0].event] else []) + Directs(queue[1..])
  {
    var n := |queue| - 1;
    if n > 0 {
      DirectsTail(queue[..n]);
      assert queue[..n][1..] == queue[1..][..n - 1];
    } else {
      assert queue[..0] == [] && queue[1..] == [];
    }
  }

  ghost predicate Moved(s: State, t: State, e: seq<Event>) {
    t.direct + Directs(t.queue) == s.direct + Directs(s.queue) + e
  }

  lemma EmitMovesDirects(s: State, e: Event, queued: bool)
    ensures Moved(s, EmitMessage(s, e, queued), [])
    ensures Moved(s, AfterEmitDirect(s, e, queued), if s.active && queued then [e] else [])
  {
    DirectsAppend(s.queue, DrainRequest);
    DirectsAppend(s.queue, Direct(e));
    assert Directs(s.queue) + [] == Directs(s.queue);
  }

  lemma ReturnMovesDirects(s: State, queued: bool)
    ensures Moved(s, Next(s, CallbackReturns(queued)), [])
  {
    DirectsAppend(s.queue, DrainRequest);
    assert Directs(s.queue) + [] == Directs(s.queue);
  }

  lemma TakeMovesDirects(s: State)
    ensures Moved(s, Next(s, TakeItem), [])
  {
    if s.draining.None? && s.queue != [] {
      DirectsTail(s.queue);
      var first := if s.queue[0].Direct? then [s.queue[0].event] else [];
      assert Next(s, TakeItem).direct == s.direct + first;
      assert (s.direct + first) + Directs(s.queue[1..]) == s.direct + (first + Directs(s.queue[1..]));
    }
  }

  lemma StepMovesDirects(s: State, step: Step)
    ensures Moved(s, Next(s, step), Taken(s, step))
  {
    match step
    case Emit(e, queued) => EmitMovesDirects(s, e, queued);
    case CallbackReturns(queued) => ReturnMovesDirects(s, queued);
    case TakeItem => TakeMovesDirects(s);
    case Close =>
    case CallbackThrows(_) =>
  }

  /** On every run, throwing callbacks included: the other events the queue took are handed over in order, once each. */
  lemma {:induction false} DirectEventsAreOneFifo(steps: seq<Step>)
    ensures Run(INITIAL, steps).direct + Directs(Run(INITIAL, steps).queue) == AllTaken(steps)
  {
    if steps != [] {
      DirectEventsAreOneFifo(steps[..|steps| - 1]);
      StepMovesDirects(Run(INITIAL, steps[..|steps| - 1]), steps[|steps| - 1]);
    }
  }
}
