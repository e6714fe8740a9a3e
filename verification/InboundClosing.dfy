/**
  A close event on its way from the native side to a channel: when messages emitted before it
  reach the channel before it, and when the close that it starts has to wait for them.
 */
module InboundClosing {
  import opened Wrappers
  import D = EventDispatcher
  import N = DispatcherProtocol
  import C = InboundChannel
  import O = InboundOrder
  import opened InboundPipeline

  /** The close event of channel k. */
  ghost predicate IsClose(e: D.Event, k: nat) { e.channel == k && KindOf(e) == C.CloseEvent }

  ghost predicate IsCloseItem(item: D.Item, k: nat) { item.Direct? && IsClose(item.event, k) }

  /** A callback is running and messages of channel k wait behind it. */
  ghost predicate MayBePassed(s: State, k: nat) {
    s.native.draining.Some? && Project(s.native.pendingEvents, k) != []
  }

  /** Channel k has seen no close event, and none is queued before item number `position`. */
  ghost predicate NoCloseYet(s: State, k: nat, position: nat) {
    && C.CloseEvent !in s.channel.b.log
    && (forall i :: 0 <= i < |s.native.queue| && s.native.taken + i < position ==> !IsCloseItem(s.native.queue[i], k))
  }

  /** The state of channel k before any close: nothing seen, nothing queued. */
  ghost predicate Unclosing(s: State, k: nat) {
    && C.CloseEvent !in s.channel.b.log
    && (forall i :: 0 <= i < |s.native.queue| ==> !IsCloseItem(s.native.queue[i], k))
  }

  ghost function Emitted(s: State, e: D.Event): State { s.(native := D.Next(s.native, D.Emit(e, true))) }

  /** The native step a step of the whole makes, if it makes one. */
  ghost function NativePart(s: State, step: Step): seq<D.Step> {
    match step
    case Native(n) => if NativeStep(n) then [n] else []
    case Take(_) => if s.native.draining.Some? || s.native.queue == [] then [] else [D.TakeItem]
    case Return(queued) => [D.CallbackReturns(queued)]
    case Js(_) => []
  }

  ghost function NativeParts(s: State, steps: seq<Step>, k: nat): seq<D.Step> {
    if steps == [] then []
    else
      var n := |steps| - 1;
      NativeParts(s, steps[..n], k) + NativePart(Run(s, steps[..n], k), steps[n])
  }

  /** Reliable steps that leave the dispatcher open. */
  ghost predicate Calm(parts: seq<D.Step>) {
    forall i :: 0 <= i < |parts| ==> D.Reliable(parts[i]) && parts[i] != D.Close
  }

  ghost predicate CalmStep(step: Step) {
    match step
    case Native(n) => D.Reliable(n) && n != D.Close
    case Return(queued) => queued
    case _ => true
  }

  ghost predicate CalmSteps(steps: seq<Step>) {
    forall i :: 0 <= i < |steps| ==> CalmStep(steps[i])
  }

  lemma NativePartRuns(s: State, step: Step, k: nat)
    requires CalmStep(step)
    ensures Next(s, step, k).native == D.Run(s.native, NativePart(s, step)) && Calm(NativePart(s, step))
  {
    var part := NativePart(s, step);
    if part != [] {
      assert part[..0] == [];
    }
  }

  /** The native side of a run is a run of the dispatcher, as calm as the whole. */
  lemma {:induction false} NativePartsRun(s: State, steps: seq<Step>, k: nat)
    requires CalmSteps(steps)
    ensures Run(s, steps, k).native == D.Run(s.native, NativeParts(s, steps, k)) && Calm(NativeParts(s, steps, k))
  {
    if steps != [] {
      var n := |steps| - 1;
      NativePartsRun(s, steps[..n], k);
      NativePartsMore(Run(s, steps[..n], k), steps[n], k, s.native, NativeParts(s, steps[..n], k));
    }
  }

  lemma NativePartsMore(u: State, step: Step, k: nat, d: D.State, parts: seq<D.Step>)
    requires u.native == D.Run(d, parts) && Calm(parts) && CalmStep(step)
    ensures Next(u, step, k).native == D.Run(d, parts + NativePart(u, step)) && Calm(parts + NativePart(u, step))
  {
    NativePartRuns(u, step, k);
    N.RunAppend(d, parts, NativePart(u, step));
  }

  // ---- which steps bring a close event --------------------------------------

  /** Nothing but messages has joined the channel's log. */
  ghost predicate OnlyMessagesLogged(ch: C.State, u: C.State) {
    C.CloseEvent in u.b.log ==> C.CloseEvent in ch.b.log
  }

  lemma {:induction false} HandleEachLogsNoClose(ch: C.State, batch: seq<D.Event>, k: nat)
    ensures OnlyMessagesLogged(ch, HandleEach(ch, batch, k))
  {
    if batch != [] {
      var n := |batch| - 1;
      HandleEachLogsNoClose(ch, batch[..n], k);
      MessageLogsNoClose(HandleEach(ch, batch[..n], k), batch[n], k);
    }
  }

  lemma MessageLogsNoClose(ch: C.State, e: D.Event, k: nat)
    ensures OnlyMessagesLogged(ch, HandleOne(ch, e, k))
  {
    if e.channel == k {
      EventIsLogged(ch, C.Msg(e.id));
    }
  }

  /** An event joins the log, unless it is an open event applied at once. */
  lemma EventIsLogged(ch: C.State, e: C.NativeEvent)
    ensures var log := C.HandleEvent(ch, e).b.log; log == ch.b.log + [e] || (e == C.Opened && log == ch.b.log)
  {
    if ch.c.registered && !ch.t.announcementPending && !ch.t.drainActive {
      assert C.Process(ch.(b := ch.b.(log := ch.b.log + [e])), e).b.log == ch.b.log + [e];
    }
  }

  lemma HandleLogsNoClose(ch: C.State, batch: seq<D.Event>, k: nat, code: C.UserCode)
    ensures OnlyMessagesLogged(ch, Handle(ch, batch, k, code))
  {
    HandleEachLogsNoClose(ch, batch, k);
    O.BatchIsLogged(ch, Ids(batch), code);
  }

  lemma TaskLogsNothing(ch: C.State, task: C.Step)
    requires OwnTask(task)
    ensures C.Next(ch, task).b.log == ch.b.log
  {
    O.StepLogsArrivals(ch, task);
  }

  lemma TakeKeepsNoClose(s: State, code: C.UserCode, k: nat, position: nat)
    requires NoCloseYet(s, k, position) && s.native.taken < position
    ensures NoCloseYet(Next(s, Take(code), k), k, position)
  {
    if s.native.draining.None? && s.native.queue != [] {
      var u := Next(s, Take(code), k);
      assert u.native.queue == s.native.queue[1..];
      if s.native.queue[0].DrainRequest? {
        HandleLogsNoClose(s.channel, s.native.pendingEvents, k, code);
      } else {
        assert !IsCloseItem(s.native.queue[0], k);
        EventIsLogged(s.channel, KindOf(s.native.queue[0].event));
      }
    }
  }

  /** Until item number `position` is taken, no close event comes to channel k. */
  lemma StepKeepsNoClose(s: State, step: Step, k: nat, position: nat)
    requires s.native.taken <= position ==> NoCloseYet(s, k, position) && position < s.native.taken + |s.native.queue|
    ensures var u := Next(s, step, k);
            u.native.taken <= position ==> NoCloseYet(u, k, position) && position < u.native.taken + |u.native.queue|
  {
    var u := Next(s, step, k);
    if u.native.taken <= position {
      match step
      case Native(_) =>
      case Take(code) =>
        if s.native.taken < position {
          TakeKeepsNoClose(s, code, k, position);
        }
      case Return(_) =>
      case Js(task) => if OwnTask(task) { TaskLogsNothing(s.channel, task); }
    }
  }

  lemma {:induction false} RunKeepsNoClose(s: State, steps: seq<Step>, k: nat, position: nat)
    requires NoCloseYet(s, k, position) && s.native.taken <= position < s.native.taken + |s.native.queue|
    ensures var u := Run(s, steps, k);
            u.native.taken <= position ==> NoCloseYet(u, k, position) && position < u.native.taken + |u.native.queue|
  {
    if steps != [] {
      RunKeepsNoClose(s, steps[..|steps| - 1], k, position);
      StepKeepsNoClose(Run(s, steps[..|steps| - 1], k), steps[|steps| - 1], k, position);
    }
  }

  // ---- exactly when a close comes after its messages -------------------------

  /** The close event of channel k is the next item to be taken. */
  ghost predicate AtTheClose(s: State, u: State) {
    u.native.taken == s.native.taken + |s.native.queue| && u.native.draining.None?
  }

  /** The native half, seen through the whole. */
  lemma NativeGetsThere(s: State, e: D.Event, steps: seq<Step>, k: nat)
    requires D.Protocol(s.native) && s.native.active && !e.isMessage && CalmSteps(steps)
    ensures var parts := NativeParts(Emitted(s, e), steps, k);
            && Run(Emitted(s, e), steps, k).native == D.Run(D.Next(s.native, D.Emit(e, true)), parts)
            && D.AllReliable(parts) && D.Close !in parts
  {
    NativePartsRun(Emitted(s, e), steps, k);
  }

  /** Up to the close, what the native side has delivered covers what was handled at its emission. */
  lemma DeliveredAtTheClose(s: State, e: D.Event, steps: seq<Step>, k: nat)
    requires D.Protocol(s.native) && s.native.active && !e.isMessage && CalmSteps(steps)
    requires AtTheClose(s, Run(Emitted(s, e), steps, k))
    ensures var d := Run(Emitted(s, e), steps, k).native;
            && D.Protocol(d) && d.queue != [] && d.queue[0] == D.Direct(e) && s.native.emitted <= d.emitted
            && (if N.MayBePassed(s.native) then d.delivered == s.native.delivered + D.Batch(s.native)
                else s.native.emitted <= d.delivered)
  {
    var parts := NativeParts(Emitted(s, e), steps, k);
    NativeGetsThere(s, e, steps, k);
    N.EventOvertakesExactly(s.native, e, parts);
    var start := D.Next(s.native, D.Emit(e, true));
    D.StepKeepsProtocol(s.native, D.Emit(e, true));
    N.RunKeepsProtocol(start, parts);
    N.EmittedGrows(start, parts);
    if N.MayBePassed(s.native) {
      N.DrainStaysBehind(s.native, e, parts);
      var d := D.Run(start, parts);
      N.SamePrefix(d.delivered, s.native.delivered + D.Batch(s.native), d.emitted);
    }
  }

  lemma ProjectPrefix(a: seq<D.Event>, b: seq<D.Event>, k: nat)
    requires a <= b
    ensures Project(a, k) <= Project(b, k)
  {
    ProjectAppend(a, b[|a|..], k);
    assert a + b[|a|..] == b;
  }

  /**
    The exact condition, channel by channel: when a close event of channel k is about to reach
    it, the messages of k emitted before it have all arrived, unless a callback was running
    with messages of k waiting behind it at the emission, and then some have not.
   */
  lemma CloseArrivesAfterItsMessagesExactly(s: State, e: D.Event, steps: seq<Step>, k: nat)
    requires Inv(s, k) && s.native.active && !e.isMessage && IsClose(e, k) && Unclosing(s, k)
    requires CalmSteps(steps) && StaysUnclosed(Emitted(s, e), steps, k)
    requires AtTheClose(s, Run(Emitted(s, e), steps, k))
    ensures var u := Run(Emitted(s, e), steps, k);
            && u.native.queue != [] && u.native.queue[0] == D.Direct(e)
            && C.CloseEvent !in u.channel.b.log
            && (Project(s.native.emitted, k) <= C.Messages(u.channel.b.log) <==> !MayBePassed(s, k))
  {
    var u := Run(Emitted(s, e), steps, k);
    EmittedKeepsInv(s, e, k);
    CalmIsReliable(steps);
    RunKeepsInv(Emitted(s, e), steps, k);
    RunKeepsNoClose(Emitted(s, e), steps, k, s.native.taken + |s.native.queue|);
    DeliveredAtTheClose(s, e, steps, k);
    assert u.native.delivered + D.Batch(u.native) == u.native.delivered;
    HandledMessages(s, k);
    if !N.MayBePassed(s.native) {
      ProjectPrefix(s.native.emitted, u.native.delivered, k);
    }
  }

  /** The messages of k emitted so far are those handled and those pending. */
  lemma HandledMessages(s: State, k: nat)
    requires D.Protocol(s.native) && s.native.active
    ensures Project(s.native.emitted, k)
         == Project(s.native.delivered + D.Batch(s.native), k) + Project(s.native.pendingEvents, k)
  {
    ProjectAppend(s.native.delivered + D.Batch(s.native), s.native.pendingEvents, k);
  }

  lemma EmittedKeepsInv(s: State, e: D.Event, k: nat)
    requires Inv(s, k) && !e.isMessage
    ensures Inv(Emitted(s, e), k)
  {
    NativeStepKeeps(s.native, D.Emit(e, true));
  }

  lemma CalmIsReliable(steps: seq<Step>)
    requires CalmSteps(steps)
    ensures Reliable(steps)
  {
    forall i | 0 <= i < |steps|
      ensures match steps[i] case Native(n) => D.Reliable(n) case Return(queued) => queued case _ => true
    {
      assert CalmStep(steps[i]);
    }
  }

  // ---- a close that acts ----------------------------------------------------

  lemma {:induction false} HandleEachExtendsLog(ch: C.State, batch: seq<D.Event>, k: nat)
    ensures ch.b.log <= HandleEach(ch, batch, k).b.log
  {
    if batch != [] {
      var n := |batch| - 1;
      HandleEachExtendsLog(ch, batch[..n], k);
      EventIsLogged(HandleEach(ch, batch[..n], k), C.Msg(batch[n].id));
    }
  }

  lemma StepExtendsLog(s: State, step: Step, k: nat)
    ensures s.channel.b.log <= Next(s, step, k).channel.b.log
  {
    match step
    case Native(_) =>
    case Take(code) =>
      HandleEachExtendsLog(s.channel, s.native.pendingEvents, k);
      O.BatchIsLogged(s.channel, Ids(s.native.pendingEvents), code);
      if s.native.queue != [] && s.native.queue[0].Direct? {
        EventIsLogged(s.channel, KindOf(s.native.queue[0].event));
      }
    case Return(_) =>
    case Js(task) => if OwnTask(task) { TaskLogsNothing(s.channel, task); }
  }

  /** These messages are in the log, before every close event. */
  ghost predicate Before(messages: seq<C.Message>, log: seq<C.NativeEvent>) {
    && messages <= C.Messages(log)
    && (forall j :: 0 <= j < |log| && log[j] == C.CloseEvent ==> messages <= C.Messages(log[..j]))
  }

  lemma BeforeExtends(messages: seq<C.Message>, log: seq<C.NativeEvent>, longer: seq<C.NativeEvent>)
    requires Before(messages, log) && log <= longer
    ensures Before(messages, longer)
  {
    assert longer[..|log|] == log;
    O.MessagesPrefix(longer, |log|);
    forall j | 0 <= j < |longer| && longer[j] == C.CloseEvent ensures messages <= C.Messages(longer[..j]) {
      if j < |log| {
        assert longer[..j] == log[..j] && log[j] == longer[j];
      } else {
        O.MessagesPrefix(longer[..j], |log|);
        assert longer[..j][..|log|] == log;
      }
    }
  }

  lemma FirstCloseIsBehind(messages: seq<C.Message>, log: seq<C.NativeEvent>)
    requires messages <= C.Messages(log) && C.CloseEvent !in log
    ensures Before(messages, log + [C.CloseEvent])
  {
    var longer := log + [C.CloseEvent];
    assert longer[..|log|] == log;
    O.MessagesPrefix(longer, |log|);
    assert forall i :: 0 <= i < |log| ==> longer[i] == log[i] && log[i] != C.CloseEvent;
  }

  /** Once the close has reached the channel, the messages emitted before it are before every close. */
  lemma {:induction false} CloseIsBehindItsMessages(s: State, e: D.Event, steps: seq<Step>, k: nat)
    requires Inv(s, k) && s.native.active && !e.isMessage && IsClose(e, k) && Unclosing(s, k)
    requires CalmSteps(steps) && StaysUnclosed(Emitted(s, e), steps, k) && !MayBePassed(s, k)
    ensures var u := Run(Emitted(s, e), steps, k);
            if u.native.taken <= s.native.taken + |s.native.queue| then C.CloseEvent !in u.channel.b.log
            else Before(Project(s.native.emitted, k), u.channel.b.log)
  {
    var start, position := Emitted(s, e), s.native.taken + |s.native.queue|;
    RunKeepsNoClose(start, steps, k, position);
    if steps != [] {
      var n := |steps| - 1;
      var before := steps[..n];
      var u := Run(start, before, k);
      StaysUnclosedBefore(start, steps, k);
      CloseIsBehindItsMessages(s, e, before, k);
      StepExtendsLog(u, steps[n], k);
      if u.native.taken > position {
        BeforeExtends(Project(s.native.emitted, k), u.channel.b.log, Next(u, steps[n], k).channel.b.log);
      } else if Next(u, steps[n], k).native.taken > position {
        OneTakenAtATime(u, steps[n], k);
        CloseArrivesAfterItsMessagesExactly(s, e, before, k);
        TakingTheClose(u, steps[n], e, k);
        FirstCloseIsBehind(Project(s.native.emitted, k), u.channel.b.log);
      }
    }
  }

  lemma OneTakenAtATime(u: State, step: Step, k: nat)
    requires Next(u, step, k).native.taken > u.native.taken
    ensures Next(u, step, k).native.taken == u.native.taken + 1 && step.Take? && u.native.draining.None?
  {
  }

  lemma TakingTheClose(u: State, step: Step, e: D.Event, k: nat)
    requires step.Take? && u.native.draining.None? && IsClose(e, k)
    requires u.native.queue != [] && u.native.queue[0] == D.Direct(e)
    ensures Next(u, step, k).channel.b.log == u.channel.b.log + [C.CloseEvent]
  {
    EventIsLogged(u.channel, C.CloseEvent);
  }

  lemma StaysUnclosedBefore(s: State, steps: seq<Step>, k: nat)
    requires steps != [] && StaysUnclosed(s, steps, k)
    ensures StaysUnclosed(s, steps[..|steps| - 1], k)
  {
    var before := steps[..|steps| - 1];
    forall n | 0 <= n <= |before| ensures Run(s, before[..n], k).channel.c.readyState != C.Closed {
      assert before[..n] == steps[..n];
    }
  }

  /**
    Close after data, end to end: a close poll that acts on channel k finds every message of k
    dispatched that was emitted before the close event, from whatever threads and through all
    buffers, if at the emission no callback was running with messages of k behind it.
   */
  lemma CloseActsAfterItsMessages(s: State, e: D.Event, steps: seq<Step>, k: nat, graceOver: bool, suppressed: bool)
    requires Inv(s, k) && s.native.active && !e.isMessage && IsClose(e, k) && Unclosing(s, k)
    requires CalmSteps(steps) && StaysUnclosed(Emitted(s, e), steps, k) && !MayBePassed(s, k)
    requires var ch := Run(Emitted(s, e), steps, k).channel; C.Next(ch, C.ClosePoll(graceOver, suppressed)).c != ch.c
    ensures Project(s.native.emitted, k) <= Run(Emitted(s, e), steps, k).channel.b.delivered
  {
    var u := Run(Emitted(s, e), steps, k);
    EmittedKeepsInv(s, e, k);
    CalmIsReliable(steps);
    RunKeepsInv(Emitted(s, e), steps, k);
    assert steps[..|steps|] == steps;
    CloseIsBehindItsMessages(s, e, steps, k);
    var j := O.CloseWaitsForItsMessages(u.channel, graceOver, suppressed);
  }

  // ---- a close that comes too early -----------------------------------------

  /** A calm run from the start, the channel unclosed throughout, that ends in u. */
  ghost predicate Reaches(steps: seq<Step>, u: State) {
    CalmSteps(steps) && StaysUnclosed(Initial(true), steps, 0) && u == Run(Initial(true), steps, 0)
  }

  lemma Extend(steps: seq<Step>, u: State, step: Step, v: State) returns (more: seq<Step>)
    requires Reaches(steps, u) && CalmStep(step) && v == Next(u, step, 0) && v.channel.c.readyState != C.Closed
    ensures more == steps + [step] && Reaches(more, v)
  {
    more := steps + [step];
    RunMore(Initial(true), steps, step);
    UnclosedMore(Initial(true), steps, more);
  }

  lemma RunMore(s: State, steps: seq<Step>, step: Step)
    ensures Run(s, steps + [step], 0) == Next(Run(s, steps, 0), step, 0)
  {
    assert (steps + [step])[..|steps|] == steps;
  }

  lemma UnclosedMore(s: State, steps: seq<Step>, more: seq<Step>)
    requires StaysUnclosed(s, steps, 0) && |more| == |steps| + 1 && more[..|steps|] == steps
    requires Run(s, more, 0).channel.c.readyState != C.Closed
    ensures StaysUnclosed(s, more, 0)
  {
    forall n | 0 <= n <= |more| ensures Run(s, more[..n], 0).channel.c.readyState != C.Closed {
      assert n <= |steps| ==> more[..n] == steps[..n];
      assert n == |more| ==> more[..n] == more;
    }
  }

  /** A handler that does nothing. */
  const Nothing: C.UserCode := _ => []

  /** The channel's side of the run below: a message, a close event, the flush. */
  lemma ChannelSide(m: nat) returns (c1: C.State, c2: C.State, c3: C.State)
    ensures c1 == C.HandleEvent(C.Initial(true), C.Msg(m)) && c2 == C.HandleEvent(c1, C.CloseEvent)
    ensures c3 == C.Next(c2, C.FlushTask(Nothing))
    ensures c1.c.readyState == c2.c.readyState == c3.c.readyState == C.Connecting
    ensures c3.b.delivered == [m] && C.Next(c3, C.ClosePoll(true, false)).c.readyState == C.Closed
  {
    c1 := C.HandleEvent(C.Initial(true), C.Msg(m));
    assert c1.b.queue == [m] && c1.c.flushScheduled;
    c2 := C.HandleEvent(c1, C.CloseEvent);
    assert c2.b.queue == [m] && c2.t.closePolling && c2.c.flushScheduled;
    c3 := C.Next(c2, C.FlushTask(Nothing));
    var w := c2.(c := c2.c.(flushScheduled := false));
    assert C.ActAll(w.c.(consumerGateActive := false), []) == w.c.(consumerGateActive := false);
    var u := C.Dispatch(w, Nothing);
    assert u.b.queue == [] && u.b.delivered == [m] && u.c == w.c;
    assert c3 == u && C.CloseActs(c3, true);
  }

  /** The native side: the close event is queued before the drain of the second message. */
  function NativeAt(first: D.Event, second: D.Event, close: D.Event, n: nat): D.State
    requires n <= 6
  {
    if n == 0 then D.INITIAL
    else if n == 1 then D.State(true, true, [first], [D.DrainRequest], 0, None, [], [], [first])
    else if n == 2 then D.State(true, true, [], [], 1, Some([first]), [], [], [first])
    else if n == 3 then D.State(true, true, [second], [], 1, Some([first]), [], [], [first, second])
    else if n == 4 then
      D.State(true, true, [second], [D.Direct(close)], 1, Some([first]), [], [], [first, second])
    else if n == 5 then
      D.State(true, true, [second], [D.Direct(close), D.DrainRequest], 1, None, [first], [], [first, second])
    else D.State(true, true, [second], [D.DrainRequest], 2, None, [first], [close], [first, second])
  }

  lemma NativeEmits(first: D.Event, second: D.Event, close: D.Event)
    requires first.isMessage && second.isMessage && !close.isMessage
    ensures NativeAt(first, second, close, 1) == D.Next(NativeAt(first, second, close, 0), D.Emit(first, true))
    ensures NativeAt(first, second, close, 3) == D.Next(NativeAt(first, second, close, 2), D.Emit(second, true))
    ensures NativeAt(first, second, close, 4) == D.Next(NativeAt(first, second, close, 3), D.Emit(close, true))
  {
  }

  lemma NativeDrains(first: D.Event, second: D.Event, close: D.Event)
    ensures NativeAt(first, second, close, 2) == D.Next(NativeAt(first, second, close, 1), D.TakeItem)
    ensures NativeAt(first, second, close, 5) == D.Next(NativeAt(first, second, close, 4), D.CallbackReturns(true))
  {
  }

  lemma NativeTakesTheClose(first: D.Event, second: D.Event, close: D.Event)
    ensures NativeAt(first, second, close, 6) == D.Next(NativeAt(first, second, close, 5), D.TakeItem)
  {
  }

  /** The first message is handed over; meanwhile the second and then the close are emitted. */
  lemma UpToTheClose(first: D.Event, second: D.Event, close: D.Event, c1: C.State) returns (steps: seq<Step>)
    requires first.isMessage && second.isMessage && !close.isMessage && first.channel == 0
    requires c1 == C.HandleEvent(C.Initial(true), C.Msg(first.id)) && c1.c.readyState == C.Connecting
    ensures Reaches(steps, State(NativeAt(first, second, close, 4), c1))
  {
    var u0 := Initial(true);
    var u1 := State(NativeAt(first, second, close, 1), u0.channel);
    var u2 := State(NativeAt(first, second, close, 2), c1);
    var u3 := State(NativeAt(first, second, close, 3), c1);
    var u4 := State(NativeAt(first, second, close, 4), c1);
    NativeEmits(first, second, close);
    FirstIsHandedOver(first, second, close, c1);
    steps := Extend([], u0, Native(D.Emit(first, true)), u1);
    steps := Extend(steps, u1, Take(Nothing), u2);
    steps := Extend(steps, u2, Native(D.Emit(second, true)), u3);
    steps := Extend(steps, u3, Native(D.Emit(close, true)), u4);
  }

  lemma FirstIsHandedOver(first: D.Event, second: D.Event, close: D.Event, c1: C.State)
    requires first.channel == 0 && c1 == C.HandleEvent(C.Initial(true), C.Msg(first.id))
    ensures Next(State(NativeAt(first, second, close, 1), C.Initial(true)), Take(Nothing), 0)
         == State(NativeAt(first, second, close, 2), c1)
  {
    NativeDrains(first, second, close);
    AloneIsHandled(C.Initial(true), first);
  }

  /**
    The condition cannot be dropped: here the close event passes the second message, and the
    close poll, which acts next, closes the channel for good without it.
   */
  lemma EarlyCloseLosesAMessage(m: nat, n: nat) returns (steps: seq<Step>)
    ensures CalmSteps(steps) && StaysUnclosed(Initial(true), steps, 0)
    ensures var u := Run(Initial(true), steps, 0);
            && Project(u.native.emitted, 0) == [m, n] && u.channel.b.delivered == [m]
            && C.Next(u.channel, C.ClosePoll(true, false)).c.readyState == C.Closed
  {
    var first, second, close := D.Event(0, true, m), D.Event(0, true, n), D.Event(0, false, 1);
    var c1, c2, c3 := ChannelSide(m);
    var u4 := State(NativeAt(first, second, close, 4), c1);
    var u5 := State(NativeAt(first, second, close, 5), c1);
    var u6 := State(NativeAt(first, second, close, 6), c2);
    var u7 := State(NativeAt(first, second, close, 6), c3);
    steps := UpToTheClose(first, second, close, c1);
    NativeDrains(first, second, close);
    steps := Extend(steps, u4, Return(true), u5);
    CloseIsTaken(first, second, close, c1);
    steps := Extend(steps, u5, Take(Nothing), u6);
    steps := Extend(steps, u6, Js(C.FlushTask(Nothing)), u7);
    TwoMessages(first, second);
  }

  lemma CloseIsTaken(first: D.Event, second: D.Event, close: D.Event, c1: C.State)
    requires IsClose(close, 0)
    ensures Next(State(NativeAt(first, second, close, 5), c1), Take(Nothing), 0)
         == State(NativeAt(first, second, close, 6), C.HandleEvent(c1, C.CloseEvent))
  {
    NativeTakesTheClose(first, second, close);
  }

  lemma AloneIsHandled(ch: C.State, e: D.Event)
    requires e.channel == 0
    ensures Handle(ch, [e], 0, Nothing) == C.HandleEvent(ch, C.Msg(e.id))
  {
    assert [e][..0] == [];
    assert HandleEach(ch, [], 0) == ch;
  }

  lemma TwoMessages(a: D.Event, b: D.Event)
    requires a.channel == b.channel == 0
    ensures Project([a, b], 0) == [a.id, b.id]
  {
    ProjectOneChannel([a, b], 0, 0);
    assert Ids([a, b]) == [a.id, b.id];
  }
}
