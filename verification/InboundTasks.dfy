/**
  Where a task of the inbound path ends, and how the ready state moves: a closed channel hands
  over nothing, a handler that changes who is served ends the task, open events open.
 */
module InboundTasks {
  import opened Wrappers
  import opened InboundChannel

  // ---- a closed channel -----------------------------------------------------

  lemma ClosedHandlesNothing(s: State, step: Step)
    requires s.c.readyState == Closed
    ensures Next(s, step).b.delivered == s.b.delivered
    ensures step.FlushTask? && s.c.flushScheduled ==> Next(s, step).b.queue == []
  {
    match step
    case BatchArrives(_, _) =>
    case FlushTask(_) =>
    case EventArrives(_) =>
    case DataChannelFlush(_, _) =>
    case FinishOperation(_) =>
    case RegisterChannel(_) =>
    case DrainNext =>
    case ClosePoll(_, _) =>
    case _ =>
  }

  // ---- what ends a task -----------------------------------------------------

  /** The handler closes its peer connection, or leaves another handler or a listener behind. */
  ghost predicate EndsTask(actions: seq<UserAction>, h: Option<Handler>) {
    || ClosePeer(SELF) in actions
    || (actions != [] && actions[|actions| - 1] == AddListener)
    || (actions != [] && actions[|actions| - 1].SetOnMessage? && actions[|actions| - 1].handler != h)
  }

  lemma ClosedStays(c: Control, a: UserAction)
    ensures c.readyState == Closed || a == ClosePeer(SELF) ==> Act(c, a).readyState == Closed
  {
    match a
    case SetOnMessage(_) =>
    case AddListener =>
    case RemoveListener =>
    case SetDataChannelConsumer(_) =>
    case BeginOperation(_) =>
    case CloseChannel =>
    case ClosePeer(_) =>
  }

  lemma {:induction false} ClosingCloses(c: Control, actions: seq<UserAction>)
    ensures c.readyState == Closed || ClosePeer(SELF) in actions ==> ActAll(c, actions).readyState == Closed
  {
    if actions != [] {
      var n := |actions| - 1;
      ClosingCloses(c, actions[..n]);
      ClosedStays(ActAll(c, actions[..n]), actions[n]);
      assert actions == actions[..n] + [actions[n]];
    }
  }

  lemma EndedTask(c: Control, actions: seq<UserAction>, h: Option<Handler>, yieldToTask: bool)
    requires EndsTask(actions, h)
    ensures var d := ActAll(c, actions); d.readyState == Closed || !CanContinue(d, h, yieldToTask)
  {
    if ClosePeer(SELF) in actions {
      ClosingCloses(c, actions);
    } else {
      LastActionCounts(ActAll(c, actions[..|actions| - 1]), actions[|actions| - 1], h, yieldToTask);
    }
  }

  lemma LastActionCounts(c: Control, a: UserAction, h: Option<Handler>, yieldToTask: bool)
    requires a == AddListener || (a.SetOnMessage? && a.handler != h)
    ensures !CanContinue(Act(c, a), h, yieldToTask)
  {
  }

  /** No task dispatches another message after one whose handler ends it. */
  lemma {:induction false} FlushEnds(s: State, code: UserCode, n: nat)
    requires |s.b.delivered| <= n && EndsTask(code(n), s.c.onmessage)
    ensures |Flush(s, code).b.delivered| <= n + 1
    decreases |s.b.queue| - s.b.index
  {
    if s.c.readyState != Closed && !Held(s) && s.b.index < |s.b.queue| {
      var u := Dispatch(s, code);
      if |s.b.delivered| == n {
        EndedTask(s.c.(consumerGateActive := false), code(n), s.c.onmessage, s.c.needsTaskYield);
      }
      if u.b.queue != [] && CanContinue(u.c, s.c.onmessage, s.c.needsTaskYield) {
        if |s.b.delivered| == n {
          assert u.c.readyState == Closed;
        } else {
          FlushEnds(u, code, n);
        }
      }
    }
  }

  lemma {:induction false} BatchEnds(s: State, messages: seq<Message>, h: Option<Handler>, yieldToTask: bool,
                                     code: UserCode, n: nat)
    requires |s.b.delivered| <= n && EndsTask(code(n), h)
    ensures |DispatchBatch(s, messages, h, yieldToTask, code).b.delivered| <= n + 1
    decreases |messages|
  {
    if messages != [] {
      var u := DeliverDirectly(s, messages[0], code);
      if |s.b.delivered| == n {
        EndedTask(s.c, code(n), h, yieldToTask);
      } else {
        BatchEnds(u, messages[1..], h, yieldToTask, code, n);
      }
    }
  }

  // ---- one message a task ---------------------------------------------------

  /** A handler of native code, of another realm, or none at all gets at most one message a task. */
  ghost predicate OneAtATime(c: Control) {
    c.onmessage.None? || !c.onmessage.value.ofThisRealm || c.needsTaskYield
  }

  lemma OneMessageATask(s: State, step: Step)
    requires OneAtATime(s.c)
    ensures |Next(s, step).b.delivered| <= |s.b.delivered| + 1
  {
    match step
    case FlushTask(code) =>
    case BatchArrives(_, _) =>
    case EventArrives(_) =>
    case DataChannelFlush(_, _) =>
    case FinishOperation(_) =>
    case RegisterChannel(_) =>
    case DrainNext =>
    case ClosePoll(_, _) =>
    case _ =>
  }

  ghost predicate YieldsForNative(c: Control) {
    c.needsTaskYield == (c.onmessage.Some? && c.onmessage.value.isNative)
  }

  lemma ReleaseKeepsYield(c: Control)
    ensures YieldsForNative(ReleaseConsumerGate(c)) == YieldsForNative(c)
  {
  }

  lemma HandlersKeepYield(c: Control, h: Option<Handler>)
    ensures YieldsForNative(Act(c, SetOnMessage(h)))
    ensures YieldsForNative(c) ==> YieldsForNative(Act(c, AddListener)) && YieldsForNative(Act(c, RemoveListener))
  {
    ReleaseKeepsYield(c.(onmessage := h, needsTaskYield := NeedsTaskYield(h)));
    ReleaseKeepsYield(c.(listeners := c.listeners + 1));
  }

  lemma OthersKeepYield(c: Control, present: bool, p: PeerId)
    requires YieldsForNative(c)
    ensures YieldsForNative(Act(c, SetDataChannelConsumer(present))) && YieldsForNative(Act(c, BeginOperation(p)))
  {
  }

  lemma CloseKeepsYield(c: Control)
    ensures YieldsForNative(HandleClose(c)) == YieldsForNative(c)
  {
  }

  lemma ClosingKeepsYield(c: Control, p: PeerId)
    requires YieldsForNative(c)
    ensures YieldsForNative(Act(c, CloseChannel)) && YieldsForNative(Act(c, ClosePeer(p)))
  {
    CloseKeepsYield(c.(closedPeers := c.closedPeers + {p}));
  }

  lemma ActKeepsYield(c: Control, a: UserAction)
    requires YieldsForNative(c)
    ensures YieldsForNative(Act(c, a))
  {
    match a {
      case SetOnMessage(h) => HandlersKeepYield(c, h);
      case AddListener => HandlersKeepYield(c, None);
      case RemoveListener => HandlersKeepYield(c, None);
      case SetDataChannelConsumer(present) => OthersKeepYield(c, present, SELF);
      case BeginOperation(p) => OthersKeepYield(c, true, p);
      case CloseChannel => ClosingKeepsYield(c, SELF);
      case ClosePeer(p) => ClosingKeepsYield(c, p);
    }
  }

  lemma {:induction false} ActAllKeepsYield(c: Control, actions: seq<UserAction>)
    requires YieldsForNative(c)
    ensures YieldsForNative(ActAll(c, actions))
  {
    if actions != [] {
      ActAllKeepsYield(c, actions[..|actions| - 1]);
      ActKeepsYield(ActAll(c, actions[..|actions| - 1]), actions[|actions| - 1]);
    }
  }

  lemma {:induction false} FlushKeepsYield(s: State, code: UserCode)
    requires YieldsForNative(s.c)
    ensures YieldsForNative(Flush(s, code).c)
    decreases |s.b.queue| - s.b.index
  {
    if s.c.readyState != Closed && !Held(s) && s.b.index < |s.b.queue| {
      ActAllKeepsYield(s.c.(consumerGateActive := false), code(|s.b.delivered|));
      FlushKeepsYield(Dispatch(s, code), code);
    }
  }

  lemma {:induction false} BatchKeepsYield(s: State, messages: seq<Message>, h: Option<Handler>, yieldToTask: bool,
                                           code: UserCode)
    requires YieldsForNative(s.c)
    ensures YieldsForNative(DispatchBatch(s, messages, h, yieldToTask, code).c)
    decreases |messages|
  {
    if messages != [] {
      ActAllKeepsYield(s.c, code(|s.b.delivered|));
      BatchKeepsYield(DeliverDirectly(s, messages[0], code), messages[1..], h, yieldToTask, code);
    }
  }

  lemma HandleBatchKeepsYield(s: State, messages: seq<Message>, code: UserCode)
    requires YieldsForNative(s.c)
    ensures YieldsForNative(HandleBatch(s, messages, code).c)
  {
    var l := s.b.(log := s.b.log + Events(messages));
    var c := s.c.(consumerGateActive := false);
    BatchKeepsYield(State(l, c, s.t), messages, c.onmessage, c.needsTaskYield, code);
  }

  lemma GateKeepsYield(s: State)
    ensures YieldsForNative(GateUntilConsumer(s).c) == YieldsForNative(s.c)
  {
  }

  lemma AnnounceKeepsYield(v: State, actions: seq<UserAction>)
    requires YieldsForNative(v.c)
    ensures YieldsForNative(Announce(v, actions).c)
  {
    var g := GateUntilConsumer(v);
    GateKeepsYield(v);
    ActAllKeepsYield(g.c, actions);
    var d := State(g.b, ActAll(g.c, actions), g.t.(announcementPending := false, openEventPending := false));
    assert GateAfterAnnouncement(d).c == d.c;
    GateKeepsYield(GateAfterAnnouncement(d));
  }

  lemma AnnouncementKeepsYield(s: State, before: seq<UserAction>, actions: seq<UserAction>)
    requires YieldsForNative(s.c)
    ensures YieldsForNative(AnnouncementTask(s, before, actions).c)
  {
    var c := s.c.(dataChannelFlushScheduled := false, announcementQueued := false);
    ActAllKeepsYield(c, before);
    AnnounceKeepsYield(s.(c := ActAll(c, before)), actions);
  }

  lemma EventsKeepYield(s: State, e: NativeEvent)
    requires YieldsForNative(s.c)
    ensures YieldsForNative(HandleEvent(s, e).c) && YieldsForNative(Drain(s).c)
  {
    ControlAfterKeeps(s.c, e, s.t.openEventPending);
    if s.b.queuedNative != [] {
      ControlAfterKeeps(s.c, s.b.queuedNative[0], s.t.openEventPending);
    }
  }

  /** Steps that do not touch the handler. */
  lemma SmallStepKeepsYield(s: State, step: Step)
    requires YieldsForNative(s.c)
    requires step.FinishOperation? || step.Pair? || step.OtherChannelAnnounced? || step.IdleCallback?
             || step.GateTimer? || step.ConsumerTimer? || step.ClosePoll? || step.ClosedByOtherCause?
             || step.RegisterChannel?
    ensures YieldsForNative(Next(s, step).c)
  {
    match step
    case FinishOperation(_) =>
    case RegisterChannel(_) =>
    case ClosePoll(_, _) =>
    case _ =>
  }

  lemma StepKeepsYield(s: State, step: Step)
    requires YieldsForNative(s.c)
    ensures YieldsForNative(Next(s, step).c)
  {
    match step
    case User(a) => ActKeepsYield(s.c, a);
    case FlushTask(code) => FlushKeepsYield(s.(c := s.c.(flushScheduled := false)), code);
    case BatchArrives(messages, code) => HandleBatchKeepsYield(s, messages, code);
    case DataChannelFlush(before, actions) => AnnouncementKeepsYield(s, before, actions);
    case EventArrives(e) => EventsKeepYield(s, e);
    case DrainNext => EventsKeepYield(s, Note);
    case _ => SmallStepKeepsYield(s, step);
  }

  lemma {:induction false} RunKeepsYield(createdLocally: bool, steps: seq<Step>)
    ensures YieldsForNative(Run(Initial(createdLocally), steps).c)
  {
    if steps != [] {
      RunKeepsYield(createdLocally, steps[..|steps| - 1]);
      StepKeepsYield(Run(Initial(createdLocally), steps[..|steps| - 1]), steps[|steps| - 1]);
    }
  }

  /** On every run: while the handler is native code, no task hands it more than one message. */
  lemma NativeHandlerGetsOneMessageATask(createdLocally: bool, steps: seq<Step>, step: Step)
    requires var c := Run(Initial(createdLocally), steps).c; c.onmessage.Some? && c.onmessage.value.isNative
    ensures var s := Run(Initial(createdLocally), steps); |Next(s, step).b.delivered| <= |s.b.delivered| + 1
  {
    RunKeepsYield(createdLocally, steps);
    OneMessageATask(Run(Initial(createdLocally), steps), step);
  }

  // ---- the ready state ------------------------------------------------------

  /** An open event opens a connecting channel, and any other one only while its announcement holds it back. */
  function Opening(s: State): ReadyState {
    if s.c.readyState == Connecting || s.t.openEventPending then Open else s.c.readyState
  }

  lemma OpenEventOpens(s: State)
    ensures Next(s, EventArrives(Opened)).c.readyState ==
              if !s.c.registered then s.c.readyState
              else if s.t.announcementPending || s.t.drainActive then Open else Opening(s)
  {
    ControlAfterKeeps(s.c, Opened, s.t.openEventPending);
  }

  lemma DrainedOpenEventOpens(s: State)
    requires s.t.drainActive && s.b.queuedNative != [] && s.b.queuedNative[0] == Opened
    ensures Next(s, DrainNext).c.readyState == Opening(s)
  {
    ControlAfterKeeps(s.c, Opened, s.t.openEventPending);
  }

  /** close() closes an open or connecting channel and nothing else. */
  lemma CloseCallCloses(s: State)
    ensures var u := Next(s, User(CloseChannel));
            u == s.(c := s.c.(readyState := if s.c.readyState == Closed then Closed else Closing))
  {
  }

  function Rank(r: ReadyState): nat {
    match r case Connecting => 0 case Open => 1 case Closing => 2 case Closed => 3
  }

  /** A channel created locally: nothing is ever queued for it, so no late open event reopens it. */
  ghost predicate Local(s: State) {
    && !s.t.announcementPending && !s.t.drainActive && !s.t.openEventPending && !s.c.announcementQueued
    && s.b.queuedNative == [] && (s.c.registered || s.c.readyState == Closed)
  }

  /** What user code leaves as it is, and the one way it moves the ready state. */
  ghost predicate Onward(c: Control, d: Control) {
    && Rank(d.readyState) >= Rank(c.readyState) && d.announcementQueued == c.announcementQueued
    && (d.registered == c.registered || d.readyState == Closed)
  }

  lemma ReleaseIsOnward(c: Control)
    ensures Onward(c, ReleaseConsumerGate(c))
  {
  }

  lemma HandlersAreOnward(c: Control, h: Option<Handler>)
    ensures Onward(c, Act(c, SetOnMessage(h)))
    ensures Onward(c, Act(c, AddListener)) && Onward(c, Act(c, RemoveListener))
  {
    ReleaseIsOnward(c.(onmessage := h, needsTaskYield := NeedsTaskYield(h)));
    ReleaseIsOnward(c.(listeners := c.listeners + 1));
  }

  lemma ClosingIsOnward(c: Control, p: PeerId)
    ensures Onward(c, Act(c, CloseChannel)) && Onward(c, Act(c, ClosePeer(p)))
  {
  }

  lemma OthersAreOnward(c: Control, present: bool, p: PeerId)
    ensures Onward(c, Act(c, SetDataChannelConsumer(present))) && Onward(c, Act(c, BeginOperation(p)))
  {
  }

  lemma ActIsOnward(c: Control, a: UserAction)
    ensures Onward(c, Act(c, a))
  {
    match a {
      case SetOnMessage(h) => HandlersAreOnward(c, h);
      case AddListener => HandlersAreOnward(c, None);
      case RemoveListener => HandlersAreOnward(c, None);
      case SetDataChannelConsumer(present) => OthersAreOnward(c, present, SELF);
      case BeginOperation(p) => OthersAreOnward(c, true, p);
      case CloseChannel => ClosingIsOnward(c, SELF);
      case ClosePeer(p) => ClosingIsOnward(c, p);
    }
  }

  lemma {:induction false} ActAllIsOnward(c: Control, actions: seq<UserAction>)
    ensures Onward(c, ActAll(c, actions))
  {
    if actions != [] {
      ActAllIsOnward(c, actions[..|actions| - 1]);
      ActIsOnward(ActAll(c, actions[..|actions| - 1]), actions[|actions| - 1]);
    }
  }

  ghost predicate OnwardTask(s: State, u: State) {
    && Onward(s.c, u.c) && u.b.queuedNative == s.b.queuedNative
    && u.t.announcementPending == s.t.announcementPending && u.t.drainActive == s.t.drainActive
    && u.t.openEventPending == s.t.openEventPending
  }

  lemma {:induction false} FlushIsOnward(s: State, code: UserCode)
    ensures OnwardTask(s, Flush(s, code))
    decreases |s.b.queue| - s.b.index
  {
    if s.c.readyState != Closed && !Held(s) && s.b.index < |s.b.queue| {
      ActAllIsOnward(s.c.(consumerGateActive := false), code(|s.b.delivered|));
      FlushIsOnward(Dispatch(s, code), code);
    }
  }

  lemma {:induction false} BatchIsOnward(s: State, messages: seq<Message>, h: Option<Handler>, yieldToTask: bool,
                                         code: UserCode)
    ensures OnwardTask(s, DispatchBatch(s, messages, h, yieldToTask, code))
    decreases |messages|
  {
    if messages != [] {
      ActAllIsOnward(s.c, code(|s.b.delivered|));
      BatchIsOnward(DeliverDirectly(s, messages[0], code), messages[1..], h, yieldToTask, code);
    }
  }

  ghost predicate LocalStep(s: State, u: State) {
    Local(u) && Rank(u.c.readyState) >= Rank(s.c.readyState)
  }

  lemma LocalBatch(s: State, messages: seq<Message>, code: UserCode)
    requires Local(s)
    ensures LocalStep(s, HandleBatch(s, messages, code))
  {
    var l := s.b.(log := s.b.log + Events(messages));
    var c := s.c.(consumerGateActive := false);
    BatchIsOnward(State(l, c, s.t), messages, c.onmessage, c.needsTaskYield, code);
  }

  lemma LocalEvent(s: State, e: NativeEvent)
    requires Local(s)
    ensures LocalStep(s, HandleEvent(s, e))
  {
    ControlAfterKeeps(s.c, e, s.t.openEventPending);
    TasksAfterKeeps(s.t, e);
  }

  lemma SmallStepIsOnward(s: State, step: Step)
    requires Local(s)
    requires step.FinishOperation? || step.Pair? || step.OtherChannelAnnounced? || step.IdleCallback?
             || step.GateTimer? || step.ConsumerTimer? || step.ClosePoll? || step.ClosedByOtherCause?
    ensures LocalStep(s, Next(s, step))
  {
    match step
    case FinishOperation(_) =>
    case ClosePoll(_, _) =>
    case _ =>
  }

  lemma StepIsOnward(s: State, step: Step)
    requires Local(s)
    ensures LocalStep(s, Next(s, step))
  {
    match step
    case User(a) => ActIsOnward(s.c, a);
    case FlushTask(code) => FlushIsOnward(s.(c := s.c.(flushScheduled := false)), code);
    case BatchArrives(messages, code) => LocalBatch(s, messages, code);
    case EventArrives(e) => LocalEvent(s, e);
    case DataChannelFlush(_, _) =>
    case RegisterChannel(_) =>
    case DrainNext =>
    case _ => SmallStepIsOnward(s, step);
  }

  lemma {:induction false} LocalRun(s: State, steps: seq<Step>)
    requires Local(s)
    ensures Local(Run(s, steps)) && Rank(Run(s, steps).c.readyState) >= Rank(s.c.readyState)
  {
    if steps != [] {
      LocalRun(s, steps[..|steps| - 1]);
      StepIsOnward(Run(s, steps[..|steps| - 1]), steps[|steps| - 1]);
    }
  }

  /** On every run, the ready state of a channel created locally only moves forward. */
  lemma LocalStateOnlyAdvances(steps: seq<Step>, more: seq<Step>)
    ensures var s := Run(Initial(true), steps); Rank(Run(s, more).c.readyState) >= Rank(s.c.readyState)
  {
    LocalRun(Initial(true), steps);
    LocalRun(Run(Initial(true), steps), more);
  }

  // ---- the queue in memory --------------------------------------------------

  /** A queue in use keeps its dispatched prefix up to 1024 messages and then drops it; a used-up queue is cleared. */
  lemma SettleCompactsExactly(b: Buffers)
    requires b.index <= |b.queue|
    ensures Settle(b) ==
              if b.index < |b.queue| && b.index <= 1024 then b
              else b.(queue := b.queue[b.index..], index := 0)
  {
  }

  lemma {:induction false} FlushKeepsShort(s: State, code: UserCode)
    requires s.b.index <= 1024
    ensures Flush(s, code).b.index <= 1024
    decreases |s.b.queue| - s.b.index
  {
    if s.c.readyState != Closed && !Held(s) && s.b.index < |s.b.queue| {
      assert Dispatch(s, code).b.index <= 1024;
      FlushKeepsShort(Dispatch(s, code), code);
    }
  }

  lemma {:induction false} BatchKeepsIndex(s: State, messages: seq<Message>, h: Option<Handler>, yieldToTask: bool,
                                           code: UserCode)
    ensures DispatchBatch(s, messages, h, yieldToTask, code).b.index == s.b.index
    decreases |messages|
  {
    if messages != [] {
      BatchKeepsIndex(DeliverDirectly(s, messages[0], code), messages[1..], h, yieldToTask, code);
    }
  }

  lemma HandleBatchKeepsIndex(s: State, messages: seq<Message>, code: UserCode)
    ensures HandleBatch(s, messages, code).b.index == s.b.index
  {
    var l := s.b.(log := s.b.log + Events(messages));
    var c := s.c.(consumerGateActive := false);
    BatchKeepsIndex(State(l, c, s.t), messages, c.onmessage, c.needsTaskYield, code);
  }

  lemma StepKeepsShort(s: State, step: Step)
    requires s.b.index <= 1024
    ensures Next(s, step).b.index <= 1024
  {
    match step
    case FlushTask(code) => FlushKeepsShort(s.(c := s.c.(flushScheduled := false)), code);
    case BatchArrives(messages, code) => HandleBatchKeepsIndex(s, messages, code);
    case EventArrives(_) =>
    case DataChannelFlush(_, _) =>
    case FinishOperation(_) =>
    case RegisterChannel(_) =>
    case DrainNext =>
    case ClosePoll(_, _) =>
    case _ =>
  }

  /** On every run, no more than 1024 dispatched messages stay at the head of the queue. */
  lemma {:induction false} DispatchedPrefixIsShort(createdLocally: bool, steps: seq<Step>)
    ensures Run(Initial(createdLocally), steps).b.index <= 1024
  {
    if steps != [] {
      DispatchedPrefixIsShort(createdLocally, steps[..|steps| - 1]);
      StepKeepsShort(Run(Initial(createdLocally), steps[..|steps| - 1]), steps[|steps| - 1]);
    }
  }
}
