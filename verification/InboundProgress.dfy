/**
  No lost wake-up on the inbound path: in every state the invariant allows, the steps of the
  event loop alone, with pending operations completing, dispatch everything that arrived.
 */
module InboundProgress {
  import opened InboundChannel
  import opened InboundOrder

  /** Tasks of the event loop; announced and code are what the user's handlers do. */
  ghost predicate LoopStep(step: Step, announced: seq<UserAction>, code: UserCode) {
    || step.FinishOperation? || step.GateTimer? || step.ConsumerTimer? || step.IdleCallback? || step.DrainNext?
    || step == DataChannelFlush([], announced)
    || step == FlushTask(code)
  }

  ghost predicate LoopSteps(steps: seq<Step>, announced: seq<UserAction>, code: UserCode) {
    forall i :: 0 <= i < |steps| ==> LoopStep(steps[i], announced, code)
  }

  /** Steps that only let go of what holds the flush back. */
  ghost predicate Releases(steps: seq<Step>) {
    forall i :: 0 <= i < |steps| ==>
      steps[i].FinishOperation? || steps[i].GateTimer? || steps[i].ConsumerTimer? || steps[i].IdleCallback?
  }

  /** The state without what such steps can change. */
  ghost function Frozen(s: State): State {
    State(s.b, s.c.(operations := map[], consumerGateActive := false, flushScheduled := false),
          s.t.(waiting := [], posted := 0, gateActive := false, gateTimers := 0, consumerTimers := 0))
  }

  /** The directions in which such steps change it. */
  ghost predicate Ahead(s: State, u: State) {
    && Frozen(u) == Frozen(s)
    && (u.c.consumerGateActive ==> s.c.consumerGateActive)
    && (s.c.flushScheduled ==> u.c.flushScheduled)
    && u.t.gateTimers <= s.t.gateTimers
    && (forall p :: Operations(u.c, p) <= Operations(s.c, p))
  }

  lemma AheadTransitive(s: State, u: State, v: State)
    requires Ahead(s, u) && Ahead(u, v)
    ensures Ahead(s, v)
  {
    forall p ensures Operations(v.c, p) <= Operations(s.c, p) {
      assert Operations(v.c, p) <= Operations(u.c, p);
    }
  }

  lemma {:induction false} RunAppend(s: State, a: seq<Step>, b: seq<Step>)
    ensures Run(s, a + b) == Run(Run(s, a), b)
    decreases |b|
  {
    if b == [] {
      assert a + b == a;
    } else {
      assert (a + b)[..|a + b| - 1] == a + b[..|b| - 1];
      RunAppend(s, a, b[..|b| - 1]);
    }
  }

  lemma RunOne(s: State, step: Step)
    ensures Run(s, [step]) == Next(s, step)
  {
    assert [step][..0] == [];
  }

  lemma {:induction false} WithoutDrops(peers: seq<PeerId>, i: nat)
    requires i < |peers|
    ensures |Without(peers, peers[i])| < |peers|
  {
    if i < |peers| - 1 {
      WithoutDrops(peers[..|peers| - 1], i);
    }
  }

  lemma FinishAhead(s: State, p: PeerId)
    requires Operations(s.c, p) > 0
    ensures Ahead(s, Finish(s, p)) && Operations(Finish(s, p).c, p) == Operations(s.c, p) - 1
  {
  }

  lemma FinishPosts(s: State, p: PeerId)
    requires Operations(s.c, p) > 0 && s.t.waiting != [] && s.t.waiting[0] == p
    ensures var u := Finish(s, p);
            if Operations(u.c, p) == 0 then u.t.posted > 0 else u.t.waiting == s.t.waiting
  {
    WithoutDrops(s.t.waiting, 0);
  }

  lemma GateTimerAhead(s: State)
    ensures Ahead(s, FireGateTimer(s))
  {
  }

  lemma ConsumerTimerAhead(s: State)
    ensures Ahead(s, FireConsumerTimer(s))
  {
  }

  lemma IdleCallbackAhead(s: State)
    ensures Ahead(s, RunIdleCallback(s))
  {
  }

  /** Every operation of one peer completes; its idle callbacks are posted. */
  lemma {:induction false} FinishAll(s: State, p: PeerId) returns (steps: seq<Step>, u: State)
    requires Inv(s) && s.c.readyState != Closed
    ensures Releases(steps) && u == Run(s, steps)
    ensures Inv(u) && Ahead(s, u) && Operations(u.c, p) == 0
    ensures s.t.waiting != [] && s.t.waiting[0] == p ==> u.t.posted > 0
    decreases Operations(s.c, p)
  {
    if Operations(s.c, p) == 0 {
      steps, u := [], s;
      assert s.t.waiting != [] ==> Operations(s.c, s.t.waiting[0]) > 0;
      return;
    }
    var v := Finish(s, p);
    FinishKeepsInv(s, p);
    FinishAhead(s, p);
    if s.t.waiting != [] && s.t.waiting[0] == p {
      FinishPosts(s, p);
    }
    var rest;
    if Operations(v.c, p) == 0 {
      rest, u := [], v;
    } else {
      rest, u := FinishAll(v, p);
    }
    steps := [FinishOperation(p)] + rest;
    RunOne(s, FinishOperation(p));
    RunAppend(s, [FinishOperation(p)], rest);
    AheadTransitive(s, v, u);
  }

  /** The nested timers of the announcement gate fire. */
  lemma {:induction false} OpenGate(s: State) returns (steps: seq<Step>, u: State)
    requires Inv(s) && s.c.readyState != Closed
    ensures Releases(steps) && u == Run(s, steps)
    ensures Inv(u) && Ahead(s, u) && u.t.gateTimers == 0
    decreases s.t.gateTimers
  {
    if s.t.gateTimers == 0 {
      steps, u := [], s;
      return;
    }
    var v := FireGateTimer(s);
    GateTimerKeepsInv(s);
    GateTimerAhead(s);
    var rest;
    rest, u := OpenGate(v);
    steps := [GateTimer] + rest;
    RunOne(s, GateTimer);
    RunAppend(s, [GateTimer], rest);
    AheadTransitive(s, v, u);
  }

  /** The consumer gate's timer fires if the gate is still closed. */
  lemma ReleaseConsumers(s: State) returns (steps: seq<Step>, u: State)
    requires Inv(s) && s.c.readyState != Closed
    ensures Releases(steps) && u == Run(s, steps)
    ensures Inv(u) && Ahead(s, u) && !u.c.consumerGateActive
  {
    if !s.c.consumerGateActive {
      steps, u := [], s;
      return;
    }
    steps, u := [ConsumerTimer], FireConsumerTimer(s);
    ConsumerTimerKeepsInv(s);
    ConsumerTimerAhead(s);
    RunOne(s, ConsumerTimer);
  }

  /** A peer that holds callbacks completes its operations, which posts them. */
  lemma PostCallback(s: State) returns (steps: seq<Step>, u: State)
    requires Inv(s) && s.c.readyState != Closed && (s.t.posted > 0 || s.t.waiting != [])
    ensures Releases(steps) && u == Run(s, steps)
    ensures Inv(u) && Ahead(s, u) && u.t.posted > 0
  {
    if s.t.posted > 0 {
      steps, u := [], s;
    } else {
      steps, u := FinishAll(s, s.t.waiting[0]);
    }
  }

  /** With every gate open, the remaining wake-ups are the idle callbacks. */
  lemma PostFlush(s: State) returns (steps: seq<Step>, u: State)
    requires Inv(s) && s.c.readyState != Closed && s.b.queue != []
    requires !s.t.gateActive && !s.c.consumerGateActive
    ensures Releases(steps) && u == Run(s, steps)
    ensures Inv(u) && Ahead(s, u) && u.c.flushScheduled
  {
    if s.c.flushScheduled {
      steps, u := [], s;
      return;
    }
    var first, v := PostCallback(s);
    u := RunIdleCallback(v);
    IdleCallbackKeepsInv(v);
    IdleCallbackAhead(v);
    RunOne(v, IdleCallback);
    steps := ThenAhead(s, first, v, [IdleCallback], u);
  }

  lemma ThenAhead(s: State, first: seq<Step>, u: State, second: seq<Step>, v: State) returns (steps: seq<Step>)
    requires Releases(first) && u == Run(s, first) && Ahead(s, u)
    requires Releases(second) && v == Run(u, second) && Ahead(u, v)
    ensures steps == first + second && Releases(steps) && v == Run(s, steps) && Ahead(s, v)
  {
    steps := first + second;
    RunAppend(s, first, second);
    AheadTransitive(s, u, v);
  }

  /**
    Whenever an unclosed channel has undispatched messages, what holds them back goes away
    by itself: a flush that nothing holds back becomes scheduled, with no buffer changed.
   */
  lemma NextFlushIsOnItsWay(s: State) returns (steps: seq<Step>, u: State)
    requires Inv(s) && s.c.readyState != Closed && s.b.queue != []
    ensures Releases(steps) && u == Run(s, steps)
    ensures Inv(u) && Ahead(s, u) && u.c.flushScheduled && !Held(u)
  {
    var more, v;
    steps, u := FinishAll(s, SELF);
    if s.t.pairedPeer.Some? {
      more, v := FinishAll(u, s.t.pairedPeer.value);
      steps := ThenAhead(s, steps, u, more, v);
      u := v;
    }
    more, v := OpenGate(u);
    steps := ThenAhead(s, steps, u, more, v);
    u := v;
    more, v := ReleaseConsumers(u);
    steps := ThenAhead(s, steps, u, more, v);
    u := v;
    more, v := PostFlush(u);
    steps := ThenAhead(s, steps, u, more, v);
    assert Operations(u.c, SELF) == 0;
    u := v;
  }

  // ---- everything is delivered ----------------------------------------------

  /** What a flush leaves as it is, however much it dispatches. */
  ghost predicate FlushKeeps(s: State, u: State) {
    && u.b.log == s.b.log && u.b.processed == s.b.processed
    && u.b.queuedNative == s.b.queuedNative && u.b.pendingNative == s.b.pendingNative
    && u.t.announcementPending == s.t.announcementPending && u.t.closePolling == s.t.closePolling
    && |u.b.delivered| >= |s.b.delivered|
    && (u.c.readyState != Closed ==> u.c.registered == s.c.registered)
  }

  lemma DispatchKeepsMost(s: State, code: UserCode)
    requires s.b.index < |s.b.queue|
    ensures FlushKeeps(s, Dispatch(s, code)) && |Dispatch(s, code).b.delivered| == |s.b.delivered| + 1
  {
    ActAllKeeps(s.c.(consumerGateActive := false), code(|s.b.delivered|), s.t);
  }

  lemma {:induction false} FlushKeepsMost(s: State, code: UserCode)
    ensures FlushKeeps(s, Flush(s, code))
    decreases |s.b.queue| - s.b.index
  {
    if s.c.readyState != Closed && !Held(s) && s.b.index < |s.b.queue| {
      DispatchKeepsMost(s, code);
      var u := Dispatch(s, code);
      if u.b.queue != [] && CanContinue(u.c, s.c.onmessage, s.c.needsTaskYield) {
        FlushKeepsMost(u, code);
      }
    }
  }

  /** A flush that nothing holds back dispatches at least one message. */
  lemma FlushDispatches(s: State, code: UserCode)
    requires s.c.readyState != Closed && !Held(s) && s.b.index < |s.b.queue|
    ensures |Flush(s, code).b.delivered| > |s.b.delivered|
  {
    DispatchKeepsMost(s, code);
    FlushKeepsMost(Dispatch(s, code), code);
  }

  lemma DispatchSome(s: State, announced: seq<UserAction>, code: UserCode) returns (steps: seq<Step>, u: State)
    requires Inv(s) && s.c.readyState != Closed && s.b.queue != []
    ensures LoopSteps(steps, announced, code) && u == Run(s, steps)
    ensures Inv(u) && FlushKeeps(s, u) && |u.b.delivered| > |s.b.delivered|
  {
    var v;
    steps, v := NextFlushIsOnItsWay(s);
    var w := v.(c := v.c.(flushScheduled := false));
    u := Flush(w, code);
    FlushKeepsMost(w, code);
    FlushDispatches(w, code);
    FlushKeepsInv(w, code);
    assert Frozen(v).b == s.b && Frozen(v).c.registered == s.c.registered
        && Frozen(v).t.announcementPending == s.t.announcementPending && Frozen(v).t.closePolling == s.t.closePolling;
    RunOne(v, FlushTask(code));
    RunAppend(s, steps, [FlushTask(code)]);
    steps := steps + [FlushTask(code)];
  }

  /** What is left to be delivered, and the announcement that comes first. */
  ghost function Left(s: State): nat
    requires s.b.index <= |s.b.queue|
  {
    2 * |s.b.queuedNative| + |Undispatched(s.b)| + if s.t.announcementPending then 1 else 0
  }

  lemma DispatchedIsLess(s: State, u: State)
    requires InOrder(s.b, []) && InOrder(u.b, []) && FlushKeeps(s, u) && |u.b.delivered| > |s.b.delivered|
    ensures Left(u) < Left(s)
  {
    assert |s.b.delivered| + |Undispatched(s.b)| == |Messages(s.b.processed)|;
  }

  lemma DrainOne(s: State)
    requires Inv(s) && s.c.readyState != Closed && s.t.drainActive && s.b.queuedNative != []
    requires s.c.registered && !s.t.announcementPending
    ensures var u := Drain(s);
            && Inv(u) && u.b.log == s.b.log && u.c.registered && !u.t.announcementPending
            && u.c.readyState != Closed && Left(u) < Left(s) && (s.t.closePolling ==> u.t.closePolling)
  {
    DrainKeepsInv(s);
  }

  lemma AnnounceNow(s: State, announced: seq<UserAction>)
    requires Inv(s) && s.c.readyState != Closed && s.c.registered
    requires s.t.announcementPending && s.c.dataChannelConsumer
    ensures var u := Next(s, DataChannelFlush([], announced));
            && Inv(u) && u.b.log == s.b.log && !u.t.announcementPending && u.t.closePolling == s.t.closePolling
            && (u.c.readyState != Closed ==> u.c.registered && Left(u) < Left(s))
  {
    AnnouncementTaskKeepsInv(s, [], announced);
    var c := s.c.(dataChannelFlushScheduled := false, announcementQueued := false);
    var v := s.(c := c);
    assert ActAll(c, []) == c;
    assert AnnouncementTask(s, [], announced) == Announce(v, announced);
    AnnounceKeepsBuffers(v, announced);
  }

  lemma GatesKeepBuffers(s: State)
    ensures var u := StartDrain(GateUntilConsumer(GateAfterAnnouncement(s)));
            && u.b == s.b && u.t.announcementPending == s.t.announcementPending
            && u.t.closePolling == s.t.closePolling && u.c.readyState == s.c.readyState && u.c.registered == s.c.registered
  {
  }

  lemma AnnounceKeepsBuffers(s: State, actions: seq<UserAction>)
    ensures var u := Announce(s, actions);
            && u.b == s.b && !u.t.announcementPending && u.t.closePolling == s.t.closePolling
            && (u.c.readyState != Closed ==> u.c.registered == s.c.registered)
  {
    var g := GateUntilConsumer(s);
    assert g.b == s.b && g.c.registered == s.c.registered;
    ActAllKeeps(g.c, actions, s.t);
    var d := State(g.b, ActAll(g.c, actions), g.t.(announcementPending := false, openEventPending := false));
    GatesKeepBuffers(d);
  }

  /** Something is left to deliver, and the announcement can be made. */
  ghost predicate Ready(s: State) {
    && Inv(s) && s.c.readyState != Closed && s.c.registered
    && (s.t.announcementPending ==> s.c.dataChannelConsumer)
  }

  /** The announcement, a flush, or one event drained. */
  lemma OneRound(s: State, announced: seq<UserAction>, code: UserCode) returns (steps: seq<Step>, u: State)
    requires Ready(s) && (s.t.announcementPending || s.b.queuedNative != [] || s.b.queue != [])
    ensures LoopSteps(steps, announced, code) && u == Run(s, steps)
    ensures u.b.log == s.b.log && Inv(u) && (s.t.closePolling ==> u.t.closePolling)
    ensures u.c.readyState != Closed ==> Ready(u) && Left(u) < Left(s)
  {
    if s.t.announcementPending {
      AnnounceNow(s, announced);
      steps, u := [DataChannelFlush([], announced)], Next(s, DataChannelFlush([], announced));
      RunOne(s, DataChannelFlush([], announced));
    } else if s.b.queue != [] {
      steps, u := DispatchSome(s, announced, code);
      if u.c.readyState != Closed {
        DispatchedIsLess(s, u);
      }
    } else {
      DrainOne(s);
      steps, u := [DrainNext], Drain(s);
      RunOne(s, DrainNext);
    }
  }

  ghost predicate NothingLeft(s: State) {
    !s.t.announcementPending && s.b.queuedNative == [] && s.b.queue == []
  }

  lemma {:induction false} EverythingGoesOn(s: State, announced: seq<UserAction>, code: UserCode)
    returns (steps: seq<Step>, u: State)
    requires Ready(s)
    ensures LoopSteps(steps, announced, code) && u == Run(s, steps)
    ensures u.b.log == s.b.log && (s.t.closePolling ==> u.t.closePolling)
    ensures u.c.readyState == Closed || (Ready(u) && NothingLeft(u))
    decreases Left(s)
  {
    if NothingLeft(s) {
      steps, u := [], s;
      return;
    }
    steps, u := OneRound(s, announced, code);
    if u.c.readyState != Closed {
      var first, v := steps, u;
      var rest;
      rest, u := EverythingGoesOn(v, announced, code);
      RunAppend(s, first, rest);
      steps := first + rest;
    }
  }

  /**
    From any state of an unclosed, registered channel, and whatever the user's handlers do,
    the event loop and the completion of pending operations bring every message that has
    arrived to the application, unless a handler closes the channel. A channel still to be
    announced needs a consumer of the datachannel event.
   */
  lemma EverythingIsDelivered(s: State, announced: seq<UserAction>, code: UserCode)
    returns (steps: seq<Step>)
    requires Ready(s)
    ensures LoopSteps(steps, announced, code)
    ensures var u := Run(s, steps); u.c.readyState == Closed || u.b.delivered == Messages(s.b.log)
  {
    var u;
    steps, u := EverythingGoesOn(s, announced, code);
    if u.c.readyState != Closed {
      InOrderIsFifo(u.b);
    }
  }

  // ---- and then the channel closes ------------------------------------------

  /** With nothing left, the gate opens and the last flush finds nothing. */
  lemma Settles(s: State, announced: seq<UserAction>, code: UserCode) returns (steps: seq<Step>, u: State)
    requires Ready(s) && NothingLeft(s)
    ensures LoopSteps(steps, announced, code) && u == Run(s, steps)
    ensures u.b.delivered == s.b.delivered && u.b.queue == [] && !u.c.flushScheduled && !u.t.gateActive
    ensures u.c.readyState == s.c.readyState && u.t.closePolling == s.t.closePolling
  {
    var v;
    steps, v := OpenGate(s);
    assert Frozen(v).b == s.b && Frozen(v).c.readyState == s.c.readyState
        && Frozen(v).t.closePolling == s.t.closePolling;
    u := v;
    if v.c.flushScheduled {
      u := Next(v, FlushTask(code));
      EmptyFlush(v.(c := v.c.(flushScheduled := false)), code);
      RunOne(v, FlushTask(code));
      RunAppend(s, steps, [FlushTask(code)]);
      steps := steps + [FlushTask(code)];
    }
  }

  lemma EmptyFlush(s: State, code: UserCode)
    requires s.c.readyState != Closed && s.b.queue == []
    ensures var u := Flush(s, code);
            && u.b.delivered == s.b.delivered && u.b.queue == [] && u.c.flushScheduled == s.c.flushScheduled
            && u.t.gateActive == s.t.gateActive && u.c.readyState == s.c.readyState
            && u.t.closePolling == s.t.closePolling
  {
  }

  /** What one firing of the close poll does, and when. */
  lemma PollMovesOnExactly(s: State, graceOver: bool, suppressed: bool)
    requires s.c.readyState != Closed
    ensures var u := Next(s, ClosePoll(graceOver, suppressed));
            var acts := s.t.closePolling && graceOver && !s.t.gateActive && !s.c.flushScheduled && s.b.queue == [];
            && u.b == s.b
            && (if acts then !u.t.closePolling && !u.t.closeQueued else u.t == s.t)
            && (if acts && !suppressed
                then u.c == s.c.(readyState := if s.c.readyState == Open then Closing else Closed,
                                 registered := s.c.registered && s.c.readyState == Open)
                else u.c == s.c)
  {
  }

  /**
    A close event that has been heard takes effect: the event loop delivers everything that has
    arrived, and then the next poll that is not suppressed takes an open channel to closing and
    any other one to closed.
   */
  lemma RemoteCloseTakesEffect(s: State, announced: seq<UserAction>, code: UserCode) returns (steps: seq<Step>)
    requires Ready(s) && s.t.closePolling
    ensures LoopSteps(steps, announced, code)
    ensures var u := Run(s, steps);
            || u.c.readyState == Closed
            || (&& u.b.delivered == Messages(s.b.log)
                && Next(u, ClosePoll(true, false)).c.readyState == if u.c.readyState == Open then Closing else Closed)
  {
    var u, more, v;
    steps, u := EverythingGoesOn(s, announced, code);
    if u.c.readyState != Closed {
      InOrderIsFifo(u.b);
      more, v := Settles(u, announced, code);
      RunAppend(s, steps, more);
      steps := steps + more;
      PollMovesOnExactly(v, true, false);
    }
  }
}
