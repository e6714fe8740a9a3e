/**
  The buffers and flags of one data channel, changed in place by the tasks of the event
  loop. Every method is one task, or a part of one, of the InboundChannel state machine.
 */
module InboundQueues {
  import opened Wrappers
  import opened InboundChannel

  class Inbox {
    var pendingNative: seq<NativeEvent>
    var queuedNative: seq<NativeEvent>
    var queue: seq<Message>
    var index: nat
    var delivered: seq<Message>
    ghost var processed: seq<NativeEvent>
    ghost var log: seq<NativeEvent>
    var c: Control
    var t: Tasks

    ghost function B(): Buffers
      reads this`pendingNative, this`queuedNative, this`queue, this`index, this`delivered, this`processed, this`log
    {
      Buffers(pendingNative, queuedNative, queue, index, delivered, processed, log)
    }

    ghost function Abs(): State
      reads this
    {
      State(B(), c, t)
    }

    constructor (createdLocally: bool)
      ensures Abs() == Initial(createdLocally)
    {
      pendingNative, queuedNative, queue, index, delivered, processed, log := [], [], [], 0, [], [], [];
      c := Control(Connecting, createdLocally, 0, None, false, false, false, false, false, false, map[], {});
      t := Tasks(None, [], 0, false, false, false, false, 0, 0, false, false);
    }

    // ---- what user code calls -----------------------------------------------

    method ScheduleMessageEventFlush()
      modifies this`c
      ensures Abs() == ScheduleFlush(old(Abs()))
    {
      if c.flushScheduled {
        return;
      }
      c := c.(flushScheduled := true);
    }

    method ReleaseMessageConsumerGate()
      modifies this`c
      ensures c == ReleaseConsumerGate(old(c))
    {
      if !c.consumerGateActive {
        return;
      }
      c := c.(consumerGateActive := false);
      ScheduleMessageEventFlush();
    }

    method SetHandler(handler: Option<Handler>)
      modifies this`c
      ensures c == Act(old(c), SetOnMessage(handler))
    {
      c := c.(onmessage := handler);
      c := c.(needsTaskYield := handler.Some? && handler.value.isNative);
      if handler.Some? {
        ReleaseMessageConsumerGate();
      }
    }

    method ListenerAdded()
      modifies this`c
      ensures c == Act(old(c), AddListener)
    {
      c := c.(listeners := c.listeners + 1);
      ReleaseMessageConsumerGate();
    }

    method DataChannelConsumerChanged(present: bool)
      modifies this`c
      ensures c == Act(old(c), SetDataChannelConsumer(present))
    {
      c := c.(dataChannelConsumer := present);
      if present && c.announcementQueued && !c.dataChannelFlushScheduled {
        c := c.(dataChannelFlushScheduled := true);
      }
    }

    method HandleChannelClose()
      modifies this`c
      ensures c == HandleClose(old(c))
    {
      if c.readyState == Closed {
        return;
      }
      c := c.(readyState := Closed);
      c := c.(registered := false);
    }

    method PeerClosed(peer: PeerId)
      modifies this`c
      ensures c == Act(old(c), ClosePeer(peer))
    {
      c := c.(closedPeers := c.closedPeers + {peer});
      if peer == SELF {
        HandleChannelClose();
      }
    }

    /** One thing user code does. */
    method Perform(a: UserAction)
      modifies this`c
      ensures c == Act(old(c), a)
    {
      match a {
        case SetOnMessage(handler) => SetHandler(handler);
        case AddListener => ListenerAdded();
        case RemoveListener =>
          if c.listeners > 0 {
            c := c.(listeners := c.listeners - 1);
          }
        case SetDataChannelConsumer(present) => DataChannelConsumerChanged(present);
        case BeginOperation(peer) =>
          c := c.(operations := c.operations[peer := Operations(c, peer) + 1]);
        case CloseChannel =>
          if c.readyState != Closing && c.readyState != Closed {
            c := c.(readyState := Closing);
          }
        case ClosePeer(peer) => PeerClosed(peer);
      }
    }

    method PerformAll(actions: seq<UserAction>)
      modifies this`c
      ensures c == ActAll(old(c), actions)
    {
      var i := 0;
      while i < |actions|
        invariant i <= |actions|
        invariant c == ActAll(old(c), actions[..i])
      {
        Perform(actions[i]);
        assert actions[..i + 1][..i] == actions[..i];
        i := i + 1;
      }
      assert actions[..i] == actions;
    }

    // ---- the message queue --------------------------------------------------

    /** Leaves a callback with the peer whose pending operations hold the flush back. */
    method WaitsForOperations() returns (waits: bool)
      modifies this`t
      ensures var peer := PendingPeer(c, old(t).pairedPeer);
              && waits == peer.Some?
              && t == if peer.Some? then AfterOperationsIdle(c, old(t), peer.value) else old(t)
    {
      var peer := PendingPeer(c, t.pairedPeer);
      if peer.None? {
        return false;
      }
      if peer.value in c.closedPeers || Operations(c, peer.value) == 0 {
        t := t.(posted := t.posted + 1);
      } else {
        t := t.(waiting := t.waiting + [peer.value]);
      }
      return true;
    }

    /** Clears a queue that is used up and drops a long dispatched prefix. */
    method SettleQueue()
      requires index <= |queue|
      modifies this`queue, this`index
      ensures B() == Settle(old(B()))
    {
      if index >= |queue| {
        queue, index := [], 0;
      } else if index > COMPACTION_LIMIT {
        queue, index := queue[index..], 0;
      }
    }

    /** Takes the next message, lets its handlers run, and settles the queue. */
    method DispatchNext(code: UserCode)
      requires index < |queue|
      modifies this`index, this`queue, this`delivered, this`c
      ensures Abs() == Dispatch(old(Abs()), code)
    {
      c := c.(consumerGateActive := false);
      var actions := code(|delivered|);
      index, delivered := index + 1, delivered + [queue[index]];
      PerformAll(actions);
      SettleQueue();
    }

    /** The flush task: dispatches until something holds the queue back or the task must yield. */
    method FlushQueuedMessageEvents(code: UserCode)
      modifies this
      ensures Abs() == Flush(old(Abs()), code)
    {
      while true
        invariant Flush(Abs(), code) == Flush(old(Abs()), code)
        decreases |queue| - index
      {
        if c.readyState == Closed {
          queue, index := [], 0;
          return;
        }
        var waits := WaitsForOperations();
        if waits || t.gateActive || (c.consumerGateActive && !HasConsumer(c)) {
          return;
        }
        if index >= |queue| {
          c, index := c.(consumerGateActive := false), 0;
          return;
        }
        var handler, yieldToTask := c.onmessage, c.needsTaskYield;
        DispatchNext(code);
        if queue == [] {
          return;
        }
        if !CanContinue(c, handler, yieldToTask) {
          ScheduleMessageEventFlush();
          return;
        }
      }
    }

    // ---- batches of messages ------------------------------------------------

    method QueueMessageEvents(messages: seq<Message>)
      modifies this`queue, this`processed, this`c
      ensures Abs() == ScheduleFlush(old(Abs()).(b := Enqueue(old(B()), messages)))
    {
      queue := queue + messages;
      processed := processed + Events(messages);
      ScheduleMessageEventFlush();
    }

    /** Calls the handler for message after message in this very task, as long as that is allowed. */
    method DispatchDirectly(messages: seq<Message>, handler: Option<Handler>, yieldToTask: bool, code: UserCode)
      modifies this
      ensures Abs() == DispatchBatch(old(Abs()), messages, handler, yieldToTask, code)
    {
      var i := 0;
      while i < |messages|
        invariant i <= |messages|
        invariant DispatchBatch(Abs(), messages[i..], handler, yieldToTask, code)
               == DispatchBatch(old(Abs()), messages, handler, yieldToTask, code)
      {
        assert messages[i..][0] == messages[i] && messages[i..][1..] == messages[i + 1..];
        processed := processed + [Msg(messages[i])];
        var actions := code(|delivered|);
        delivered := delivered + [messages[i]];
        PerformAll(actions);
        if c.readyState == Closed {
          return;
        }
        if i + 1 < |messages| && !CanContinue(c, handler, yieldToTask) {
          QueueMessageEvents(messages[i + 1..]);
          return;
        }
        i := i + 1;
      }
    }

    method DispatchNativeMessageBatch(messages: seq<Message>, code: UserCode) returns (handled: bool)
      modifies this
      ensures var s := old(Abs());
              var d := s.c.(consumerGateActive := false);
              if s.c.readyState == Closed then handled && Abs() == s
              else if s.b.queue != [] || Held(s) then !handled && Abs() == s
              else if !CanContinue(d, d.onmessage, d.needsTaskYield) then !handled && Abs() == s.(c := d)
              else handled && Abs() == DispatchBatch(s.(c := d), messages, d.onmessage, d.needsTaskYield, code)
    {
      if c.readyState == Closed {
        return true;
      }
      if |queue| > 0 {
        return false;
      }
      if PendingPeer(c, t.pairedPeer).Some? || t.gateActive {
        return false;
      }
      if c.consumerGateActive && !HasConsumer(c) {
        return false;
      }
      if c.consumerGateActive {
        c := c.(consumerGateActive := false);
      }
      var handler, yieldToTask := c.onmessage, c.needsTaskYield;
      if !CanContinue(c, handler, yieldToTask) {
        return false;
      }
      DispatchDirectly(messages, handler, yieldToTask, code);
      return true;
    }

    /** A batch that holds messages of this channel only. */
    method HandleNativeEventBatch(messages: seq<Message>, code: UserCode)
      modifies this
      ensures Abs() == HandleBatch(old(Abs()), messages, code)
    {
      if messages == [] {
        return;
      }
      log := log + Events(messages);
      if !c.registered {
        pendingNative := pendingNative + Events(messages);
        return;
      }
      if t.announcementPending || t.drainActive {
        queuedNative := queuedNative + Events(messages);
        return;
      }
      var handled := DispatchNativeMessageBatch(messages, code);
      if !handled {
        QueueMessageEvents(messages);
      }
    }

    // ---- single events ------------------------------------------------------

    /** The channel's event handler once the event need not wait. */
    method ProcessNativeEvent(e: NativeEvent)
      modifies this
      ensures Abs() == Process(old(Abs()), e)
    {
      processed := processed + [e];
      match e {
        case Opened =>
          if t.openEventPending || c.readyState == Connecting {
            c := c.(readyState := Open);
          }
        case Msg(m) =>
          queue := queue + [m];
          ScheduleMessageEventFlush();
        case CloseEvent =>
          if !t.closeQueued {
            t := t.(closeQueued := true, closePolling := true);
          }
        case Note =>
      }
    }

    method HandleNativeEvent(e: NativeEvent)
      modifies this
      ensures Abs() == HandleEvent(old(Abs()), e)
    {
      if c.registered && (t.announcementPending || t.drainActive) && e == Opened {
        c, t := c.(readyState := Open), t.(openEventPending := true);
        return;
      }
      log := log + [e];
      if !c.registered {
        pendingNative := pendingNative + [e];
      } else if t.announcementPending || t.drainActive {
        queuedNative := queuedNative + [e];
      } else {
        ProcessNativeEvent(e);
      }
    }

    /** One task of the drain that follows the announcement. */
    method DispatchQueuedNativeEvent()
      requires t.drainActive
      modifies this
      ensures Abs() == Drain(old(Abs()))
    {
      if queuedNative == [] {
        t := t.(drainActive := false);
        return;
      }
      var e := queuedNative[0];
      queuedNative := queuedNative[1..];
      ProcessNativeEvent(e);
      t := t.(drainActive := queuedNative != []);
    }

    // ---- announcement -------------------------------------------------------

    /** The channel becomes known; events that came before it wait for the announcement. */
    method RegisterNativeChannel(state: ReadyState)
      requires !c.registered && c.readyState != Closed
      modifies this
      ensures Abs() == Register(old(Abs()), state)
    {
      c := c.(registered := true, readyState := state, announcementQueued := true);
      t := t.(openEventPending := state == Open, announcementPending := true);
      queuedNative, pendingNative := pendingNative, [];
      if !c.dataChannelFlushScheduled {
        c := c.(dataChannelFlushScheduled := true);
      }
    }

    method GateMessageEventsUntilConsumer()
      modifies this`c, this`t
      ensures Abs() == GateUntilConsumer(old(Abs()))
      ensures HasConsumer(c) || (c.consumerGateActive && t.consumerTimers > old(t.consumerTimers))
    {
      if HasConsumer(c) {
        return;
      }
      c := c.(consumerGateActive := true);
      t := t.(consumerTimers := t.consumerTimers + 1);
    }

    method GateMessageEventsAfterAnnouncement()
      modifies this`t
      ensures Abs() == GateAfterAnnouncement(old(Abs()))
    {
      if t.gateActive {
        return;
      }
      t := t.(gateActive := true);
      t := t.(gateTimers := 2);
    }

    /** The announcement task; the handlers of channels announced before this one have their say. */
    method FlushDataChannelEvents(before: seq<UserAction>, actions: seq<UserAction>)
      modifies this
      ensures Abs() == AnnouncementTask(old(Abs()), before, actions)
      ensures old(t.announcementPending) && !t.announcementPending ==>
                t.gateActive && (HasConsumer(c) || c.consumerGateActive)
    {
      c := c.(dataChannelFlushScheduled := false);
      if SELF in c.closedPeers || !c.dataChannelConsumer || !c.announcementQueued {
        return;
      }
      c := c.(announcementQueued := false);
      PerformAll(before);
      if SELF in c.closedPeers {
        return;
      }
      GateMessageEventsUntilConsumer();
      PerformAll(actions);
      t := t.(announcementPending := false);
      t := t.(openEventPending := false);
      GateMessageEventsAfterAnnouncement();
      GateMessageEventsUntilConsumer();
      if queuedNative != [] {
        t := t.(drainActive := true);
      }
    }

    // ---- timers, operations, close ------------------------------------------

    /** The last pending operation of a peer posts the callbacks that wait for it. */
    method FinishPendingOperation(peer: PeerId)
      modifies this`c, this`t
      ensures Abs() == Finish(old(Abs()), peer)
    {
      if Operations(c, peer) == 0 {
        return;
      }
      c := c.(operations := c.operations[peer := Operations(c, peer) - 1]);
      if Operations(c, peer) == 0 {
        var rest := Without(t.waiting, peer);
        t := t.(posted := t.posted + |t.waiting| - |rest|);
        t := t.(waiting := rest);
      }
    }

    method GateTimerFires()
      modifies this`c, this`t
      ensures Abs() == FireGateTimer(old(Abs()))
    {
      if t.gateTimers == 0 {
        return;
      }
      t := t.(gateTimers := t.gateTimers - 1);
      if t.gateTimers == 0 {
        t := t.(gateActive := false);
        ScheduleMessageEventFlush();
      }
    }

    method ConsumerTimerFires()
      requires t.consumerTimers > 0
      modifies this`c, this`t
      ensures Abs() == FireConsumerTimer(old(Abs()))
    {
      t := t.(consumerTimers := t.consumerTimers - 1);
      ReleaseMessageConsumerGate();
    }

    /** The deferred close acts only on an empty message queue with no flush to come. */
    method PollClose(graceOver: bool, suppressed: bool)
      requires t.closePolling
      modifies this`c, this`t
      ensures Abs() == Poll(old(Abs()), graceOver, suppressed)
    {
      if c.readyState == Closed {
        t := t.(closePolling := false);
        return;
      }
      if !graceOver || t.gateActive || c.flushScheduled || |queue| > 0 {
        return;
      }
      t := t.(closePolling := false, closeQueued := false);
      if suppressed {
        return;
      }
      if c.readyState == Open {
        c := c.(readyState := Closing);
      } else {
        HandleChannelClose();
      }
    }
  }
}
