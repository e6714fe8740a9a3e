/**
  What holds messages back on the inbound path: an incoming channel hands over nothing before
  its announcement has settled and somebody listens, and nothing while an operation is pending.
 */
module InboundGates {
  import opened Wrappers
  import opened InboundChannel

  // ---- pending operations ---------------------------------------------------

  ghost predicate OperationPending(s: State) {
    Operations(s.c, SELF) > 0 || (s.t.pairedPeer.Some? && Operations(s.c, s.t.pairedPeer.value) > 0)
  }

  /** In no state does a step dispatch a message while the peer or the paired one has an operation pending. */
  lemma OperationsHoldMessages(s: State, step: Step)
    requires OperationPending(s)
    ensures Next(s, step).b.delivered == s.b.delivered
  {
    match step
    case BatchArrives(_, _) =>
    case FlushTask(_) =>
    case EventArrives(_) =>
    case DataChannelFlush(before, actions) => AnnouncementKeepsBuffers(s, before, actions);
    case FinishOperation(_) =>
    case RegisterChannel(_) =>
    case DrainNext =>
    case ClosePoll(_, _) =>
    case _ =>
  }

  lemma AnnouncementKeepsBuffers(s: State, before: seq<UserAction>, actions: seq<UserAction>)
    ensures AnnouncementTask(s, before, actions).b == s.b
  {
  }

  lemma {:induction false} OperationsGrow(c: Control, actions: seq<UserAction>, p: PeerId)
    ensures Operations(ActAll(c, actions), p) >= Operations(c, p)
    ensures BeginOperation(p) in actions ==> Operations(ActAll(c, actions), p) > 0
  {
    if actions != [] {
      var n := |actions| - 1;
      OperationsGrow(c, actions[..n], p);
      var d := ActAll(c, actions[..n]);
      OperationGrows(d, actions[n], p);
      if BeginOperation(p) in actions && actions[n] != BeginOperation(p) {
        assert BeginOperation(p) in actions[..n];
      }
    }
  }

  lemma OperationGrows(c: Control, a: UserAction, p: PeerId)
    ensures Operations(Act(c, a), p) >= Operations(c, p) + if a == BeginOperation(p) then 1 else 0
  {
    match a
    case SetOnMessage(_) =>
    case AddListener =>
    case RemoveListener =>
    case SetDataChannelConsumer(_) =>
    case BeginOperation(_) =>
    case CloseChannel =>
    case ClosePeer(_) =>
  }

  /** A flush ends with the message whose handler begins an operation. */
  lemma {:induction false} FlushStopsAtOperation(s: State, code: UserCode, n: nat)
    requires |s.b.delivered| <= n && BeginOperation(SELF) in code(n)
    ensures |Flush(s, code).b.delivered| <= n + 1
    decreases |s.b.queue| - s.b.index
  {
    if s.c.readyState != Closed && !Held(s) && s.b.index < |s.b.queue| {
      var u := Dispatch(s, code);
      if u.b.queue != [] && CanContinue(u.c, s.c.onmessage, s.c.needsTaskYield) {
        if |s.b.delivered| == n {
          OperationsGrow(s.c.(consumerGateActive := false), code(n), SELF);
        } else {
          FlushStopsAtOperation(u, code, n);
        }
      }
    }
  }

  lemma OneAction(c: Control, a: UserAction)
    ensures ActAll(c, [a]) == Act(c, a)
  {
    var actions := [a];
    assert actions[..0] == [] && ActAll(c, []) == c;
    assert ActAll(c, actions) == Act(ActAll(c, actions[..|actions| - 1]), actions[|actions| - 1]);
  }

  /** The direct path does not look again: the rest of its batch passes an operation begun by a handler. */
  lemma {:induction false} BatchPassesOperation(s: State, messages: seq<Message>, h: Option<Handler>,
                                                yieldToTask: bool, code: UserCode)
    requires s.c.readyState != Closed && CanContinue(s.c, h, yieldToTask)
    requires forall n :: code(n) == [BeginOperation(SELF)]
    ensures DispatchBatch(s, messages, h, yieldToTask, code).b.delivered == s.b.delivered + messages
    decreases |messages|
  {
    if messages != [] {
      var u := DeliverDirectly(s, messages[0], code);
      OneAction(s.c, BeginOperation(SELF));
      BatchPassesOperation(u, messages[1..], h, yieldToTask, code);
      assert [messages[0]] + messages[1..] == messages;
    }
  }

  // ---- before and after the announcement ------------------------------------

  /** An incoming channel that has not been announced: it has nothing to dispatch. */
  ghost predicate Before(s: State) {
    && s.b.delivered == [] && s.b.queue == []
    && !s.t.drainActive && !s.t.gateActive && s.t.gateTimers == 0
    && (s.c.registered || s.c.announcementQueued ==> s.t.announcementPending)
    && (s.c.announcementQueued ==> s.c.registered || s.c.readyState != Connecting)
  }

  /** It will not be announced again. */
  ghost predicate After(s: State) {
    !s.c.announcementQueued && (s.c.registered || s.c.readyState != Connecting)
  }

  /** What user code, and the dispatch of messages, cannot do. */
  ghost predicate Steady(c: Control, d: Control) {
    && d.announcementQueued == c.announcementQueued
    && (d.readyState == Connecting ==> c.readyState == Connecting)
    && (d.registered ==> c.registered)
    && (d.readyState != Closed ==> c.readyState != Closed && d.registered == c.registered)
  }

  lemma ReleaseIsSteady(c: Control)
    ensures Steady(c, ReleaseConsumerGate(c))
  {
  }

  lemma CloseIsSteady(c: Control)
    ensures Steady(c, HandleClose(c))
  {
  }

  lemma HandlerIsSteady(c: Control, h: Option<Handler>)
    ensures Steady(c, Act(c, SetOnMessage(h)))
  {
    ReleaseIsSteady(c.(onmessage := h, needsTaskYield := NeedsTaskYield(h)));
  }

  lemma ListenerIsSteady(c: Control)
    ensures Steady(c, Act(c, AddListener)) && Steady(c, Act(c, RemoveListener))
  {
    ReleaseIsSteady(c.(listeners := c.listeners + 1));
  }

  lemma CloseActionIsSteady(c: Control, p: PeerId)
    ensures Steady(c, Act(c, CloseChannel)) && Steady(c, Act(c, ClosePeer(p)))
  {
    CloseIsSteady(c.(closedPeers := c.closedPeers + {p}));
  }

  lemma OtherActionIsSteady(c: Control, present: bool, p: PeerId)
    ensures Steady(c, Act(c, SetDataChannelConsumer(present))) && Steady(c, Act(c, BeginOperation(p)))
  {
  }

  lemma ActIsSteady(c: Control, a: UserAction)
    ensures Steady(c, Act(c, a))
  {
    match a {
      case SetOnMessage(h) => HandlerIsSteady(c, h);
      case AddListener => ListenerIsSteady(c);
      case RemoveListener => ListenerIsSteady(c);
      case SetDataChannelConsumer(present) => OtherActionIsSteady(c, present, SELF);
      case BeginOperation(p) => OtherActionIsSteady(c, true, p);
      case CloseChannel => CloseActionIsSteady(c, SELF);
      case ClosePeer(p) => CloseActionIsSteady(c, p);
    }
  }

  lemma SteadyTransitive(c: Control, d: Control, e: Control)
    requires Steady(c, d) && Steady(d, e)
    ensures Steady(c, e)
  {
  }

  lemma {:induction false} ActAllIsSteady(c: Control, actions: seq<UserAction>)
    ensures Steady(c, ActAll(c, actions))
  {
    if actions != [] {
      var d, a := ActAll(c, actions[..|actions| - 1]), actions[|actions| - 1];
      ActAllIsSteady(c, actions[..|actions| - 1]);
      ActIsSteady(d, a);
      SteadyTransitive(c, d, Act(d, a));
    }
  }

  ghost predicate SteadyTask(s: State, u: State) {
    && Steady(s.c, u.c) && u.t.gateActive == s.t.gateActive && u.t.gateTimers == s.t.gateTimers
  }

  lemma {:induction false} FlushIsSteady(s: State, code: UserCode)
    ensures SteadyTask(s, Flush(s, code))
    decreases |s.b.queue| - s.b.index
  {
    if s.c.readyState != Closed && !Held(s) && s.b.index < |s.b.queue| {
      var u := Dispatch(s, code);
      ActAllIsSteady(s.c.(consumerGateActive := false), code(|s.b.delivered|));
      if u.b.queue != [] && CanContinue(u.c, s.c.onmessage, s.c.needsTaskYield) {
        FlushIsSteady(u, code);
      }
    }
  }

  lemma {:induction false} DispatchBatchIsSteady(s: State, messages: seq<Message>, h: Option<Handler>,
                                                 yieldToTask: bool, code: UserCode)
    ensures SteadyTask(s, DispatchBatch(s, messages, h, yieldToTask, code))
    decreases |messages|
  {
    if messages != [] {
      ActAllIsSteady(s.c, code(|s.b.delivered|));
      DispatchBatchIsSteady(DeliverDirectly(s, messages[0], code), messages[1..], h, yieldToTask, code);
    }
  }

  lemma BatchIsSteady(s: State, messages: seq<Message>, code: UserCode)
    ensures SteadyTask(s, HandleBatch(s, messages, code))
  {
    var l := s.b.(log := s.b.log + Events(messages));
    var c := s.c.(consumerGateActive := false);
    DispatchBatchIsSteady(State(l, c, s.t), messages, c.onmessage, c.needsTaskYield, code);
  }

  /** The step that announces the channel: both gates are closed when it ends. */
  ghost predicate Announces(s: State, step: Step, u: State) {
    && step.DataChannelFlush? && s.t.announcementPending && !u.t.announcementPending
    && u.b.delivered == [] && u.t.gateActive && u.t.gateTimers == 2
    && (HasConsumer(u.c) || u.c.consumerGateActive)
  }

  lemma GateUntilConsumerIsSteady(s: State)
    ensures var u := GateUntilConsumer(s);
            SteadyTask(s, u) && u.b == s.b && (HasConsumer(u.c) || u.c.consumerGateActive)
            && u.t == s.t.(consumerTimers := u.t.consumerTimers)
  {
  }

  lemma GateAfterAnnouncementCloses(s: State)
    requires !s.t.gateActive
    ensures GateAfterAnnouncement(s) == s.(t := s.t.(gateActive := true, gateTimers := 2))
  {
  }

  lemma AnnounceFromBefore(v: State, actions: seq<UserAction>)
    requires v.b.delivered == [] && !v.t.gateActive && After(v)
    ensures var u := Announce(v, actions);
            After(u) && u.b == v.b && !u.t.announcementPending && u.t.gateActive && u.t.gateTimers == 2
            && (HasConsumer(u.c) || u.c.consumerGateActive)
  {
    var g := GateUntilConsumer(v);
    GateUntilConsumerIsSteady(v);
    ActAllIsSteady(g.c, actions);
    var d := State(g.b, ActAll(g.c, actions), g.t.(announcementPending := false, openEventPending := false));
    assert After(d) && !d.t.gateActive;
    GateAfterAnnouncementCloses(d);
    GateUntilConsumerIsSteady(GateAfterAnnouncement(d));
    StartDrainKeeps(GateUntilConsumer(GateAfterAnnouncement(d)));
  }

  lemma StartDrainKeeps(s: State)
    ensures var u := StartDrain(s); u == s.(t := s.t.(drainActive := u.t.drainActive))
  {
  }

  lemma AnnouncementFromBefore(s: State, before: seq<UserAction>, actions: seq<UserAction>)
    requires Before(s)
    ensures var u := AnnouncementTask(s, before, actions);
            Before(u) || (After(u) && Announces(s, DataChannelFlush(before, actions), u))
  {
    var d := s.c.(dataChannelFlushScheduled := false, announcementQueued := false);
    var v := s.(c := ActAll(d, before));
    ActAllIsSteady(d, before);
    if s.c.announcementQueued {
      assert After(v);
      AnnounceFromBefore(v, actions);
    }
  }

  /** Steps that touch nothing a channel before its announcement rests on. */
  lemma SmallStepFromBefore(s: State, step: Step)
    requires Before(s)
    requires step.FinishOperation? || step.Pair? || step.OtherChannelAnnounced? || step.IdleCallback?
             || step.GateTimer? || step.ConsumerTimer? || step.ClosePoll? || step.ClosedByOtherCause?
    ensures Before(Next(s, step))
  {
    match step
    case FinishOperation(_) =>
    case ClosePoll(_, _) =>
    case Pair(_) =>
    case OtherChannelAnnounced =>
    case IdleCallback =>
    case GateTimer =>
    case ConsumerTimer =>
    case ClosedByOtherCause =>
  }

  lemma TaskFromBefore(s: State, step: Step)
    requires Before(s)
    requires step.EventArrives? || step.BatchArrives? || step.FlushTask? || step.RegisterChannel? || step.DrainNext?
    ensures Before(Next(s, step))
  {
    match step
    case EventArrives(_) =>
    case BatchArrives(_, _) =>
    case FlushTask(_) =>
    case RegisterChannel(_) =>
    case DrainNext =>
  }

  lemma StepFromBefore(s: State, step: Step)
    requires Before(s)
    ensures var u := Next(s, step); Before(u) || (After(u) && Announces(s, step, u))
  {
    match step
    case User(a) => ActIsSteady(s.c, a);
    case DataChannelFlush(before, actions) => AnnouncementFromBefore(s, before, actions);
    case EventArrives(_) => TaskFromBefore(s, step);
    case BatchArrives(_, _) => TaskFromBefore(s, step);
    case FlushTask(_) => TaskFromBefore(s, step);
    case RegisterChannel(_) => TaskFromBefore(s, step);
    case DrainNext => TaskFromBefore(s, step);
    case _ => SmallStepFromBefore(s, step);
  }

  ghost predicate KeepsAfter(s: State, u: State) {
    (After(s) ==> After(u)) && u.t.gateActive == s.t.gateActive && u.t.gateTimers == s.t.gateTimers
  }

  lemma ProcessKeepsAfter(s: State, e: NativeEvent)
    ensures KeepsAfter(s, Process(s, e))
  {
    ControlAfterKeeps(s.c, e, s.t.openEventPending);
    TasksAfterKeeps(s.t, e);
  }

  lemma EventKeepsAfter(s: State, e: NativeEvent)
    ensures KeepsAfter(s, HandleEvent(s, e))
  {
    ProcessKeepsAfter(s.(b := s.b.(log := s.b.log + [e])), e);
  }

  lemma DrainKeepsAfter(s: State)
    ensures KeepsAfter(s, Drain(s))
  {
    if s.b.queuedNative != [] {
      ProcessKeepsAfter(s.(b := s.b.(queuedNative := s.b.queuedNative[1..])), s.b.queuedNative[0]);
    }
  }

  lemma SmallStepKeepsAfter(s: State, step: Step)
    requires After(s)
    requires step.FinishOperation? || step.Pair? || step.OtherChannelAnnounced? || step.IdleCallback?
             || step.ConsumerTimer? || step.ClosePoll? || step.ClosedByOtherCause? || step.RegisterChannel?
    ensures KeepsAfter(s, Next(s, step))
  {
    match step
    case FinishOperation(_) =>
    case RegisterChannel(_) =>
    case ClosePoll(_, _) =>
    case Pair(_) =>
    case OtherChannelAnnounced =>
    case IdleCallback =>
    case ConsumerTimer =>
    case ClosedByOtherCause =>
  }

  lemma StepFromAfter(s: State, step: Step)
    requires After(s)
    ensures After(Next(s, step)) && (step == GateTimer || KeepsAfter(s, Next(s, step)))
  {
    match step
    case User(a) => ActIsSteady(s.c, a);
    case BatchArrives(messages, code) => BatchIsSteady(s, messages, code);
    case FlushTask(code) => FlushIsSteady(s.(c := s.c.(flushScheduled := false)), code);
    case EventArrives(e) => EventKeepsAfter(s, e);
    case DrainNext => DrainKeepsAfter(s);
    case DataChannelFlush(_, _) =>
    case GateTimer =>
    case _ => SmallStepKeepsAfter(s, step);
  }

  // ---- nobody listens -------------------------------------------------------

  ghost predicate Quiet(s: State) {
    !HasConsumer(s.c) && s.b.delivered == [] && (Before(s) || (After(s) && s.c.consumerGateActive))
  }

  lemma StepStaysQuiet(s: State, step: Step)
    requires Quiet(s) && step != ConsumerTimer && !HasConsumer(Next(s, step).c)
    ensures Quiet(Next(s, step))
  {
    if Before(s) {
      StepFromBefore(s, step);
    } else {
      StepFromAfter(s, step);
      GateStaysClosed(s, step);
    }
  }

  ghost predicate GateKept(s: State, u: State) {
    u.b.delivered == s.b.delivered && (s.c.consumerGateActive ==> u.c.consumerGateActive)
  }

  lemma ProcessKeepsGate(s: State, e: NativeEvent)
    ensures GateKept(s, Process(s, e))
  {
    ControlAfterKeeps(s.c, e, s.t.openEventPending);
  }

  lemma EventKeepsGate(s: State, e: NativeEvent)
    ensures GateKept(s, HandleEvent(s, e))
  {
    ProcessKeepsGate(s.(b := s.b.(log := s.b.log + [e])), e);
  }

  lemma DrainKeepsGate(s: State)
    ensures GateKept(s, Drain(s))
  {
    if s.b.queuedNative != [] {
      ProcessKeepsGate(s.(b := s.b.(queuedNative := s.b.queuedNative[1..])), s.b.queuedNative[0]);
    }
  }

  lemma GateStaysClosed(s: State, step: Step)
    requires After(s) && s.c.consumerGateActive && !HasConsumer(s.c)
    requires step != ConsumerTimer && !HasConsumer(Next(s, step).c)
    ensures GateKept(s, Next(s, step))
  {
    match step
    case User(_) =>
    case BatchArrives(_, _) =>
    case FlushTask(_) =>
    case EventArrives(e) => EventKeepsGate(s, e);
    case DrainNext => DrainKeepsGate(s);
    case DataChannelFlush(_, _) =>
    case FinishOperation(_) =>
    case RegisterChannel(_) =>
    case GateTimer =>
    case ClosePoll(_, _) =>
    case _ =>
  }

  /**
    On every run in which an incoming channel never has a consumer for its messages, and the
    timer of the consumer gate does not fire, no message is handed to nobody.
   */
  lemma NothingIsDispatchedToNobody(steps: seq<Step>)
    requires forall i :: 0 <= i < |steps| ==> steps[i] != ConsumerTimer
    requires forall n :: 0 <= n <= |steps| ==> !HasConsumer(Run(Initial(false), steps[..n]).c)
    ensures Run(Initial(false), steps).b.delivered == []
  {
    for n := 0 to |steps|
      invariant Quiet(Run(Initial(false), steps[..n]))
    {
      assert steps[..n + 1][..n] == steps[..n];
      StepStaysQuiet(Run(Initial(false), steps[..n]), steps[n]);
    }
    assert steps[..|steps|] == steps;
  }

  // ---- the timers of the announcement ---------------------------------------

  ghost function GateTimers(steps: seq<Step>): nat {
    if steps == [] then 0
    else GateTimers(steps[..|steps| - 1]) + if steps[|steps| - 1] == GateTimer then 1 else 0
  }

  /** After k of its timers, an announced channel has dispatched only if k is two or more. */
  ghost predicate Timed(s: State, k: nat) {
    && After(s) && (s.t.gateActive <==> s.t.gateTimers > 0) && s.t.gateTimers + k >= 2
    && (s.t.gateTimers > 0 ==> s.b.delivered == [])
  }

  lemma StepStaysTimed(s: State, step: Step, k: nat)
    requires Timed(s, k)
    ensures Timed(Next(s, step), k + if step == GateTimer then 1 else 0)
  {
    StepFromAfter(s, step);
    if s.t.gateTimers > 0 {
      GateHoldsMessages(s, step);
    }
  }

  lemma GateHoldsMessages(s: State, step: Step)
    requires s.t.gateActive
    ensures Next(s, step).b.delivered == s.b.delivered
  {
    match step
    case BatchArrives(_, _) =>
    case FlushTask(_) =>
    case EventArrives(_) =>
    case DataChannelFlush(before, actions) => AnnouncementKeepsBuffers(s, before, actions);
    case FinishOperation(_) =>
    case RegisterChannel(_) =>
    case DrainNext =>
    case ClosePoll(_, _) =>
    case _ =>
  }

  ghost predicate AnnouncedAt(steps: seq<Step>, n: nat) {
    && n < |steps|
    && Announces(Run(Initial(false), steps[..n]), steps[n], Run(Initial(false), steps[..n + 1]))
  }

  ghost predicate TimedSince(steps: seq<Step>, n: nat) {
    AnnouncedAt(steps, n) && Timed(Run(Initial(false), steps), GateTimers(steps[n + 1..]))
  }

  lemma OneMoreTimed(steps: seq<Step>, step: Step, n: nat)
    requires TimedSince(steps, n)
    ensures TimedSince(steps + [step], n)
  {
    var more := steps + [step];
    assert more[..|steps|] == steps;
    StepStaysTimed(Run(Initial(false), steps), step, GateTimers(steps[n + 1..]));
    assert more[..n] == steps[..n] && more[..n + 1] == steps[..n + 1];
    assert more[n + 1..] == steps[n + 1..] + [step];
    assert more[n + 1..][..|more[n + 1..]| - 1] == steps[n + 1..];
  }

  lemma OneMoreAnnounces(steps: seq<Step>, step: Step)
    requires Before(Run(Initial(false), steps))
    ensures Before(Run(Initial(false), steps + [step])) || TimedSince(steps + [step], |steps|)
  {
    var more := steps + [step];
    assert more[..|steps|] == steps && more[..|steps| + 1] == more && more[|steps| + 1..] == [];
    StepFromBefore(Run(Initial(false), steps), step);
  }

  lemma {:induction false} AnnouncedOrBefore(steps: seq<Step>) returns (n: nat)
    ensures Before(Run(Initial(false), steps)) || TimedSince(steps, n)
  {
    n := 0;
    if steps != [] {
      var m := |steps| - 1;
      n := AnnouncedOrBefore(steps[..m]);
      assert steps[..m] + [steps[m]] == steps;
      if Before(Run(Initial(false), steps[..m])) {
        OneMoreAnnounces(steps[..m], steps[m]);
        n := m;
      } else {
        OneMoreTimed(steps[..m], steps[m], n);
      }
    }
  }

  /**
    On every run of an incoming channel that has handed over a message, some earlier step was
    its announcement, and two of the timers started there have fired since.
   */
  lemma AnnouncementComesFirst(steps: seq<Step>) returns (n: nat)
    requires Run(Initial(false), steps).b.delivered != []
    ensures n < |steps| && steps[n].DataChannelFlush? && GateTimers(steps[n + 1..]) >= 2
    ensures Run(Initial(false), steps[..n]).t.announcementPending
    ensures !Run(Initial(false), steps[..n + 1]).t.announcementPending
  {
    n := AnnouncedOrBefore(steps);
  }
}
