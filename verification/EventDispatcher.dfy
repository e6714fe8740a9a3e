/**
  The native event dispatcher: any thread emits, the JavaScript thread drains. Messages are
  batched behind one queued dispatch; every other event travels as its own queue item. Each
  step below is one critical section of lifecycleMutex, or the JavaScript callback's outcome.
 */
module EventDispatcher {
  import opened Wrappers

  datatype Event = Event(channel: nat, isMessage: bool, id: nat)

  /** What waits in the thread-safe function's queue. */
  datatype Item = DrainRequest | Direct(event: Event)

  datatype State = State(
    active: bool,
    dispatchScheduled: bool,
    pendingEvents: seq<Event>,
    queue: seq<Item>,                // items of the thread-safe function not yet taken
    taken: nat,                      // how many items the JavaScript thread has taken
    draining: Option<seq<Event>>,    // the batch whose callback is running
    delivered: seq<Event>,           // messages whose callback has returned
    direct: seq<Event>,              // other events handed to the callback
    emitted: seq<Event>)             // messages accepted from the emitting threads

  /**
    Emit and EmitDirect carry whether NonBlockingCall succeeds. CallbackThrows(n) is a
    callback that throws after it has handled n messages of its batch.
   */
  datatype Step =
    | Emit(event: Event, queued: bool)
    | Close
    | TakeItem
    | CallbackReturns(queued: bool)
    | CallbackThrows(handled: nat)

  const INITIAL := State(true, false, [], [], 0, None, [], [], [])

  ghost function QueueDispatch(s: State, queued: bool): State {
    if queued then s.(queue := s.queue + [DrainRequest])
    else s.(dispatchScheduled := false, pendingEvents := [])
  }

  ghost function EmitMessage(s: State, e: Event, queued: bool): State {
    if !s.active then s
    else
      var t := s.(pendingEvents := s.pendingEvents + [e], emitted := s.emitted + [e]);
      if s.dispatchScheduled then t else QueueDispatch(t.(dispatchScheduled := true), queued)
  }

  ghost function AfterEmitDirect(s: State, e: Event, queued: bool): State {
    if !s.active || !queued then s else s.(queue := s.queue + [Direct(e)])
  }

  ghost function BeginDrain(s: State): State {
    if s.pendingEvents == [] then s.(dispatchScheduled := false)
    else s.(draining := Some(s.pendingEvents), pendingEvents := [])
  }

  ghost function Next(s: State, step: Step): State {
    match step
    case Emit(e, queued) => if e.isMessage then EmitMessage(s, e, queued) else AfterEmitDirect(s, e, queued)
    case Close => s.(active := false, dispatchScheduled := false, pendingEvents := [])
    case TakeItem =>
      if s.draining.Some? || s.queue == [] then s
      else
        var t := s.(queue := s.queue[1..], taken := s.taken + 1);
        (match s.queue[0]
         case DrainRequest => BeginDrain(t)
         case Direct(e) => t.(direct := t.direct + [e]))
    case CallbackReturns(queued) =>
      if s.draining.None? then s
      else
        var t := s.(draining := None, delivered := s.delivered + s.draining.value);
        if !t.active || t.pendingEvents == [] then t.(dispatchScheduled := false) else QueueDispatch(t, queued)
    case CallbackThrows(handled) =>
      if s.draining.None? || handled > |s.draining.value| then s
      else s.(draining := None, delivered := s.delivered + s.draining.value[..handled])
  }

  ghost function Run(s: State, steps: seq<Step>): State {
    if steps == [] then s else Next(Run(s, steps[..|steps| - 1]), steps[|steps| - 1])
  }

  /** The environment the protocol relies on: the queue takes items and the callback returns. */
  ghost predicate Reliable(step: Step) {
    match step
    case Emit(_, queued) => queued
    case CallbackReturns(queued) => queued
    case CallbackThrows(_) => false
    case _ => true
  }

  ghost predicate AllReliable(steps: seq<Step>) {
    forall i :: 0 <= i < |steps| ==> Reliable(steps[i])
  }

  // ---- the class ------------------------------------------------------------

  class Dispatcher {
    var active: bool
    var pendingEvents: seq<Event>
    var dispatchScheduled: bool
    var queue: seq<Item>
    var taken: nat
    var running: Option<seq<Event>>
    var delivered: seq<Event>
    var direct: seq<Event>
    ghost var emitted: seq<Event>

    ghost function Abs(): State
      reads this
    {
      State(active, dispatchScheduled, pendingEvents, queue, taken, running, delivered, direct, emitted)
    }

    constructor ()
      ensures Abs() == INITIAL
    {
      active, dispatchScheduled, pendingEvents, queue, taken := true, false, [], [], 0;
      running, delivered, direct, emitted := None, [], [], [];
    }

    method Emit(event: Event, queued: bool)
      modifies this
      ensures Abs() == Next(old(Abs()), Step.Emit(event, queued))
    {
      if !event.isMessage {
        EmitDirect(event, queued);
        return;
      }
      var scheduleDispatch := false;
      if !active {
        return;
      }
      pendingEvents := pendingEvents + [event];
      emitted := emitted + [event];
      if !dispatchScheduled {
        dispatchScheduled := true;
        scheduleDispatch := true;
      }
      if !scheduleDispatch {
        return;
      }
      QueueDispatchLocked(queued);
    }

    method EmitDirect(event: Event, queued: bool)
      modifies this
      ensures Abs() == AfterEmitDirect(old(Abs()), event, queued)
    {
      if !active {
        return;
      }
      if queued {
        queue := queue + [Direct(event)];
      }
    }

    method QueueDispatchLocked(queued: bool)
      modifies this
      ensures Abs() == QueueDispatch(old(Abs()), queued)
    {
      if queued {
        queue := queue + [DrainRequest];
      } else {
        dispatchScheduled := false;
        pendingEvents := [];
      }
    }

    method Close()
      modifies this
      ensures Abs() == Next(old(Abs()), Step.Close)
    {
      pendingEvents := [];
      dispatchScheduled := false;
      if active {
        active := false;
      }
    }

    /** The JavaScript thread takes an item; a drain swaps the pending batch out. */
    method TakeItem()
      modifies this
      ensures Abs() == Next(old(Abs()), Step.TakeItem)
    {
      if running.Some? || queue == [] {
        return;
      }
      var item := queue[0];
      queue, taken := queue[1..], taken + 1;
      match item {
        case Direct(event) =>
          direct := direct + [event];
        case DrainRequest =>
          if pendingEvents == [] {
            dispatchScheduled := false;
            return;
          }
          running, pendingEvents := Some(pendingEvents), [];
      }
    }

    /** The callback has returned; the second critical section of the drain. */
    method FinishDrain(queued: bool)
      modifies this
      ensures Abs() == Next(old(Abs()), CallbackReturns(queued))
    {
      if running.None? {
        return;
      }
      delivered := delivered + running.value;
      running := None;
      if !active || pendingEvents == [] {
        dispatchScheduled := false;
        return;
      }
      QueueDispatchLocked(queued);
    }
  }

  // ---- one dispatch, nothing lost, nothing reordered ------------------------

  ghost function Drains(queue: seq<Item>): nat {
    if queue == [] then 0 else Drains(queue[..|queue| - 1]) + if queue[|queue| - 1].DrainRequest? then 1 else 0
  }

  /** Dispatches queued or running. */
  ghost function InFlight(s: State): nat { Drains(s.queue) + if s.draining.Some? then 1 else 0 }

  ghost function Batch(s: State): seq<Event> { if s.draining.Some? then s.draining.value else [] }

  ghost predicate Protocol(s: State) {
    && InFlight(s) <= 1
    && (s.active ==> InFlight(s) == if s.dispatchScheduled then 1 else 0)
    && (s.active && s.pendingEvents != [] ==> s.dispatchScheduled)
    && (s.active ==> s.delivered + Batch(s) + s.pendingEvents == s.emitted)
    && (!s.active ==> s.pendingEvents == [] && s.delivered + Batch(s) <= s.emitted)
  }

  lemma {:induction false} DrainsAppend(queue: seq<Item>, item: Item)
    ensures Drains(queue + [item]) == Drains(queue) + if item.DrainRequest? then 1 else 0
  {
    assert (queue + [item])[..|queue|] == queue;
  }

  lemma {:induction false} DrainsTail(queue: seq<Item>)
    requires queue != []
    ensures Drains(queue) == Drains(queue[1..]) + if queue[0].DrainRequest? then 1 else 0
  {
    if |queue| > 1 {
      DrainsTail(queue[..|queue| - 1]);
      assert queue[..|queue| - 1][1..] == queue[1..][..|queue| - 2];
    } else {
      assert queue[..0] == [] && queue[1..] == [];
    }
  }

  lemma EmitKeepsProtocol(s: State, e: Event)
    requires Protocol(s)
    ensures Protocol(EmitMessage(s, e, true)) && Protocol(AfterEmitDirect(s, e, true))
  {
    DrainsAppend(s.queue, DrainRequest);
    DrainsAppend(s.queue, Direct(e));
    assert s.delivered + Batch(s) + (s.pendingEvents + [e]) == (s.delivered + Batch(s) + s.pendingEvents) + [e];
  }

  lemma StepKeepsProtocol(s: State, step: Step)
    requires Protocol(s) && Reliable(step)
    ensures Protocol(Next(s, step))
  {
    match step
    case Emit(e, _) => EmitKeepsProtocol(s, e);
    case Close =>
    case TakeItem => TakeKeepsProtocol(s);
    case CallbackReturns(_) => DrainsAppend(s.queue, DrainRequest);
  }

  lemma TakeKeepsProtocol(s: State)
    requires Protocol(s)
    ensures Protocol(Next(s, TakeItem))
  {
    if s.draining.None? && s.queue != [] {
      DrainsTail(s.queue);
    }
  }
}
