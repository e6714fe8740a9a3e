/**
  A peer binding and its data channels while the peer is being torn down. AddChannel, the
  channels' own closing and the shutdown run on different threads; each step below is what
  one of them does atomically, under channelsMutex or on the atomic shutdown flag.
 */
module PeerTeardown {
  /** How far AddChannel has come with a channel. */
  datatype Phase =
    | Handed          // AddChannel has been called
    | Passed          // it found no shutdown
    | Attached        // the binding exists, callbacks are attached
    | Inserted        // it is in the map; isClosed is asked next
    | Removing        // it was found closed; RemoveChannel comes next
    | Rejected        // the second look found a shutdown; Destroy and close come next
    | Done

  datatype Channel = Channel(phase: Phase, attached: bool, closed: bool, callbackPending: bool)

  /** The shutdown body; only the caller that flips the flag runs it. */
  datatype Body = NotStarted | Exchanged | Destroying | Finished

  datatype State = State(
    shutdown: bool,
    body: Body,
    bodies: nat,                   // history: how many callers entered the body
    channels: seq<Channel>,
    inMap: set<nat>,
    snapshot: seq<nat>,            // channels the body still has to destroy
    scheduled: set<nat>)           // channels whose closing the teardown work carries

  /** A closing channel with callbacks attached reports it; notifies is for the others. */
  datatype Step =
    | AddChannel
    | CheckShutdown(i: nat)
    | Attach(i: nat)
    | Insert(i: nat)
    | CloseRejected(i: nat)
    | CheckClosed(i: nat)
    | Remove(i: nat)
    | NativeCloses(i: nat, notifies: bool)
    | OnClosed(i: nat)
    | Shutdown
    | Snapshot(order: seq<nat>)
    | DestroyNext

  const INITIAL := State(false, NotStarted, 0, [], {}, [], {})

  ghost predicate At(s: State, i: nat, phase: Phase) {
    i < |s.channels| && s.channels[i].phase == phase
  }

  ghost function Put(s: State, i: nat, c: Channel): State
    requires i < |s.channels|
  {
    s.(channels := s.channels[i := c])
  }

  ghost function MoveTo(s: State, i: nat, phase: Phase): State
    requires i < |s.channels|
  {
    Put(s, i, s.channels[i].(phase := phase))
  }

  /** order lists the channels of the map, each once. */
  ghost predicate Lists(order: seq<nat>, inMap: set<nat>) {
    && (forall k :: 0 <= k < |order| ==> order[k] in inMap)
    && (forall i :: i in inMap ==> i in order)
  }

  ghost function Next(s: State, step: Step): State {
    match step
    case AddChannel => s.(channels := s.channels + [Channel(Handed, false, false, false)])
    case CheckShutdown(i) =>
      if !At(s, i, Handed) then s
      else if s.shutdown then Put(s, i, s.channels[i].(phase := Done, closed := true))
      else MoveTo(s, i, Passed)
    case Attach(i) =>
      if !At(s, i, Passed) then s else Put(s, i, s.channels[i].(phase := Attached, attached := true))
    case Insert(i) =>
      if !At(s, i, Attached) then s
      else if s.shutdown then MoveTo(s, i, Rejected)
      else MoveTo(s, i, Inserted).(inMap := s.inMap + {i})
    case CloseRejected(i) =>
      if !At(s, i, Rejected) then s
      else Put(s, i, s.channels[i].(phase := Done, closed := true, callbackPending := false))
    case CheckClosed(i) =>
      if !At(s, i, Inserted) then s else MoveTo(s, i, if s.channels[i].closed then Removing else Done)
    case Remove(i) =>
      if !At(s, i, Removing) then s else MoveTo(s, i, Done).(inMap := s.inMap - {i})
    case NativeCloses(i, notifies) =>
      if i >= |s.channels| || s.channels[i].closed then s
      else Put(s, i, s.channels[i].(closed := true, callbackPending := s.channels[i].attached || notifies))
    case OnClosed(i) =>
      if i >= |s.channels| || !s.channels[i].callbackPending then s
      else Put(s, i, s.channels[i].(callbackPending := false)).(inMap := s.inMap - {i})
    case Shutdown =>
      if s.shutdown then s else s.(shutdown := true, body := Exchanged, bodies := s.bodies + 1)
    case Snapshot(order) =>
      if s.body != Exchanged || !Lists(order, s.inMap) then s
      else s.(snapshot := order, inMap := {}, body := Destroying)
    case DestroyNext =>
      if s.body != Destroying then s
      else if s.snapshot == [] then s.(body := Finished)
      else
        var t := s.(scheduled := s.scheduled + {s.snapshot[0]}, snapshot := s.snapshot[1..]);
        if s.snapshot[0] < |s.channels|
        then Put(t, s.snapshot[0], s.channels[s.snapshot[0]].(attached := false, callbackPending := false)) else t
  }

  ghost function Run(s: State, steps: seq<Step>): State {
    if steps == [] then s else Next(Run(s, steps[..|steps| - 1]), steps[|steps| - 1])
  }

  // ---- the invariant --------------------------------------------------------

  /** Nothing is left to run: every AddChannel has returned and every callback has been called. */
  ghost predicate Quiescent(s: State) {
    && (forall i :: 0 <= i < |s.channels| ==> s.channels[i].phase == Done && !s.channels[i].callbackPending)
    && (s.body == NotStarted || s.body == Finished)
  }

  /** Where a channel is accounted for once AddChannel has put it into the map. */
  ghost predicate Held(s: State, i: nat) {
    i in s.inMap || i in s.snapshot || i in s.scheduled
  }

  ghost predicate ChannelInv(s: State, i: nat)
    requires i < |s.channels|
  {
    var c := s.channels[i];
    && (c.phase == Inserted || c.phase == Removing || c.phase == Done ==> c.closed || Held(s, i))
    && (c.phase == Removing ==> c.closed)
    && (c.phase == Attached ==> c.attached)
    && (i in s.inMap ==> c.attached)
    && (i in s.inMap || i in s.snapshot ==> c.phase == Inserted || c.phase == Removing || c.phase == Done)
    && (i in s.inMap && c.closed ==> c.phase != Done || c.callbackPending)
    && (c.callbackPending ==> c.closed)
  }

  ghost predicate Inv(s: State) {
    && (s.shutdown <==> s.body != NotStarted)
    && s.bodies == (if s.shutdown then 1 else 0)
    && (s.body == Destroying || s.body == Finished ==> s.inMap == {})
    && (s.body != Destroying ==> s.snapshot == [])
    && (forall i :: i in s.inMap ==> i < |s.channels|)
    && (forall k :: 0 <= k < |s.snapshot| ==> s.snapshot[k] < |s.channels|)
    && (forall i :: 0 <= i < |s.channels| ==> ChannelInv(s, i))
  }

  ghost predicate OfAddChannel(step: Step) {
    match step
    case AddChannel => true
    case CheckShutdown(_) => true
    case Attach(_) => true
    case Insert(_) => true
    case CloseRejected(_) => true
    case CheckClosed(_) => true
    case Remove(_) => true
    case _ => false
  }

  lemma AddChannelKeepsInv(s: State, step: Step)
    requires Inv(s) && OfAddChannel(step)
    ensures Inv(Next(s, step))
  {
    var t := Next(s, step);
    forall i | 0 <= i < |t.channels| ensures ChannelInv(t, i) {
      if i < |s.channels| {
        assert ChannelInv(s, i);
      }
    }
  }

  lemma ClosingKeepsInv(s: State, step: Step)
    requires Inv(s) && (step.NativeCloses? || step.OnClosed?)
    ensures Inv(Next(s, step))
  {
    var t := Next(s, step);
    forall i | 0 <= i < |t.channels| ensures ChannelInv(t, i) {
      assert ChannelInv(s, i);
    }
  }

  lemma ShutdownKeepsInv(s: State, step: Step)
    requires Inv(s) && (step.Shutdown? || step.Snapshot? || step.DestroyNext?)
    ensures Inv(Next(s, step))
  {
    var t := Next(s, step);
    forall i | 0 <= i < |t.channels| ensures ChannelInv(t, i) {
      assert ChannelInv(s, i);
    }
  }

  lemma StepKeepsInv(s: State, step: Step)
    requires Inv(s)
    ensures Inv(Next(s, step))
  {
    if OfAddChannel(step) {
      AddChannelKeepsInv(s, step);
    } else if step.NativeCloses? || step.OnClosed? {
      ClosingKeepsInv(s, step);
    } else {
      ShutdownKeepsInv(s, step);
    }
  }

  lemma {:induction false} RunKeepsInv(steps: seq<Step>)
    ensures Inv(Run(INITIAL, steps))
  {
    if steps != [] {
      RunKeepsInv(steps[..|steps| - 1]);
      StepKeepsInv(Run(INITIAL, steps[..|steps| - 1]), steps[|steps| - 1]);
    }
  }

  /** However many threads ask for the shutdown, its body runs once; afterwards the map stays empty. */
  lemma ShutdownRunsOnce(steps: seq<Step>)
    ensures var s := Run(INITIAL, steps);
            && s.bodies == (if s.shutdown then 1 else 0)
            && (s.body == Destroying || s.body == Finished ==> s.inMap == {})
  {
    RunKeepsInv(steps);
  }

  /**
    At quiescence no closed channel is left in the map, and once the peer is shut down every
    channel ever handed to AddChannel is closed or scheduled for closing by the teardown.
   */
  lemma NoChannelEscapes(steps: seq<Step>, i: nat)
    requires var s := Run(INITIAL, steps); Quiescent(s) && i < |s.channels|
    ensures var s := Run(INITIAL, steps);
            && (i in s.inMap ==> !s.channels[i].closed)
            && (s.shutdown ==> s.channels[i].closed || i in s.scheduled)
            && (!s.shutdown ==> s.channels[i].closed || i in s.inMap)
  {
    RunKeepsInv(steps);
    var s := Run(INITIAL, steps);
    assert ChannelInv(s, i);
    if !s.shutdown {
      NothingScheduledBefore(steps);
    }
  }

  lemma {:induction false} NothingScheduledBefore(steps: seq<Step>)
    ensures var s := Run(INITIAL, steps); s.body == NotStarted || s.body == Exchanged ==> s.scheduled == {}
  {
    if steps != [] {
      NothingScheduledBefore(steps[..|steps| - 1]);
      RunKeepsInv(steps[..|steps| - 1]);
    }
  }

  /** What the teardown has destroyed has no callbacks any more, and gets none. */
  ghost predicate Detached(s: State) {
    forall i :: i in s.scheduled ==>
      i < |s.channels| && !s.channels[i].attached
      && (s.channels[i].phase == Inserted || s.channels[i].phase == Removing || s.channels[i].phase == Done)
  }

  lemma StepKeepsDetached(s: State, step: Step)
    requires Inv(s) && Detached(s)
    ensures Detached(Next(s, step))
  {
    if step.DestroyNext? && s.snapshot != [] {
      assert ChannelInv(s, s.snapshot[0]);
    }
  }

  /** On every run, a channel scheduled for closing is detached, so its own closing reports nothing to the binding. */
  lemma DestroyedIsDetached(steps: seq<Step>, i: nat)
    requires i in Run(INITIAL, steps).scheduled
    ensures var s := Run(INITIAL, steps);
            && i < |s.channels| && !s.channels[i].attached
            && (!s.channels[i].callbackPending ==> !Next(s, NativeCloses(i, false)).channels[i].callbackPending)
  {
    RunKeepsDetached(steps);
  }

  lemma {:induction false} RunKeepsDetached(steps: seq<Step>)
    ensures Detached(Run(INITIAL, steps))
  {
    if steps != [] {
      RunKeepsDetached(steps[..|steps| - 1]);
      RunKeepsInv(steps[..|steps| - 1]);
      StepKeepsDetached(Run(INITIAL, steps[..|steps| - 1]), steps[|steps| - 1]);
    }
  }

  /** Destroying a channel, or rejecting it, drops the callback it may have had coming. */
  lemma DroppedChannelsAreSilent(s: State, i: nat)
    requires Inv(s)
    ensures At(s, i, Rejected) ==>
              var c := Next(s, CloseRejected(i)).channels[i]; c.phase == Done && c.closed && !c.callbackPending
    ensures s.body == Destroying && s.snapshot != [] && s.snapshot[0] == i ==>
              var t := Next(s, DestroyNext); i in t.scheduled && !t.channels[i].callbackPending
  {
  }

  // ---- quiescence is always within reach ------------------------------------

  ghost function StepsLeft(c: Channel): nat {
    (match c.phase
     case Handed => 6
     case Passed => 5
     case Attached => 4
     case Inserted => 3
     case Removing => 2
     case Rejected => 2
     case Done => 0)
    + if c.callbackPending then 1 else 0
  }

  ghost function AllLeft(channels: seq<Channel>): nat {
    if channels == [] then 0 else AllLeft(channels[..|channels| - 1]) + StepsLeft(channels[|channels| - 1])
  }

  ghost function BodyLeft(s: State): nat {
    match s.body
    case NotStarted => 0
    case Exchanged => 1
    case Destroying => 1
    case Finished => 0
  }

  lemma {:induction false} AllLeftUpdate(channels: seq<Channel>, i: nat, c: Channel)
    requires i < |channels|
    ensures AllLeft(channels[i := c]) + StepsLeft(channels[i]) == AllLeft(channels) + StepsLeft(c)
  {
    var n := |channels| - 1;
    if i < n {
      AllLeftUpdate(channels[..n], i, c);
      assert channels[i := c][..n] == channels[..n][i := c];
    } else {
      assert channels[i := c][..n] == channels[..n];
    }
  }

  /** The step a channel's own threads take next. */
  ghost function Advance(c: Channel, i: nat): Step
    requires StepsLeft(c) > 0
  {
    match c.phase
    case Handed => CheckShutdown(i)
    case Passed => Attach(i)
    case Attached => Insert(i)
    case Inserted => CheckClosed(i)
    case Removing => Remove(i)
    case Rejected => CloseRejected(i)
    case Done => OnClosed(i)
  }

  lemma AdvanceChanges(s: State, i: nat)
    requires i < |s.channels| && StepsLeft(s.channels[i]) > 0
    ensures var t := Next(s, Advance(s.channels[i], i));
            && |t.channels| == |s.channels| && t.channels == s.channels[i := t.channels[i]]
            && StepsLeft(t.channels[i]) < StepsLeft(s.channels[i])
            && t.body == s.body && t.snapshot == s.snapshot
  {
    match s.channels[i].phase
    case Handed =>
    case Passed =>
    case Attached =>
    case Inserted =>
    case Removing =>
    case Rejected =>
    case Done =>
  }

  lemma AdvanceMakesProgress(s: State, i: nat)
    requires i < |s.channels| && StepsLeft(s.channels[i]) > 0
    ensures var t := Next(s, Advance(s.channels[i], i));
            AllLeft(t.channels) < AllLeft(s.channels) && t.body == s.body && t.snapshot == s.snapshot
  {
    AdvanceChanges(s, i);
    AllLeftUpdate(s.channels, i, Next(s, Advance(s.channels[i], i)).channels[i]);
  }

  lemma {:induction false} ListMap(inMap: set<nat>) returns (order: seq<nat>)
    ensures Lists(order, inMap)
    decreases |inMap|
  {
    if inMap == {} {
      order := [];
    } else {
      var i :| i in inMap;
      order := ListMap(inMap - {i});
      order := order + [i];
    }
  }

  lemma {:induction false} RunAppend(s: State, a: seq<Step>, b: seq<Step>)
    ensures Run(s, a + b) == Run(Run(s, a), b)
    decreases |b|
  {
    if b == [] {
      assert a + b == a;
    } else {
      assert (a + b)[..|a + b| - 1] == a + b[..|b| - 1];
      RunAppend(s, a, b[..|b| - 1]);
    }
  }

  lemma RunOne(s: State, step: Step)
    ensures Run(s, [step]) == Next(s, step)
  {
    assert [step][..0] == [];
  }

  /** The shutdown body runs to its end. */
  lemma {:induction false} FinishBody(s: State) returns (steps: seq<Step>)
    requires Inv(s)
    ensures Inv(Run(s, steps)) && Run(s, steps).body in {NotStarted, Finished}
    decreases if s.body == Exchanged then 1 else 0, BodyLeft(s) + |s.snapshot|
  {
    if s.body == NotStarted || s.body == Finished {
      return [];
    }
    var step := DestroyNext;
    if s.body == Exchanged {
      var order := ListMap(s.inMap);
      step := Snapshot(order);
    }
    StepKeepsInv(s, step);
    RunOne(s, step);
    var rest := FinishBody(Next(s, step));
    RunAppend(s, [step], rest);
    steps := [step] + rest;
  }

  /** Every AddChannel returns and every callback runs. */
  lemma {:induction false} FinishChannels(s: State) returns (steps: seq<Step>)
    requires Inv(s) && s.body in {NotStarted, Finished}
    ensures Quiescent(Run(s, steps))
    decreases AllLeft(s.channels)
  {
    if i :| 0 <= i < |s.channels| && StepsLeft(s.channels[i]) > 0 {
      var step := Advance(s.channels[i], i);
      AdvanceMakesProgress(s, i);
      StepKeepsInv(s, step);
      RunOne(s, step);
      var rest := FinishChannels(Next(s, step));
      RunAppend(s, [step], rest);
      steps := [step] + rest;
    } else {
      steps := [];
      assert forall i :: 0 <= i < |s.channels| ==> StepsLeft(s.channels[i]) == 0;
    }
  }

  /** From every reachable state the threads can run to quiescence, with nothing new started. */
  lemma QuiescenceIsReachable(before: seq<Step>) returns (steps: seq<Step>)
    ensures Quiescent(Run(INITIAL, before + steps))
  {
    RunKeepsInv(before);
    var s := Run(INITIAL, before);
    steps := FinishBody(s);
    var rest := FinishChannels(Run(s, steps));
    RunAppend(s, steps, rest);
    steps := steps + rest;
    RunAppend(INITIAL, before, steps);
  }

  // ---- the class ------------------------------------------------------------

  /** The fields the threads share; each method is one critical section or one atomic access. */
  class Binding {
    var shutdown: bool
    var body: Body
    ghost var bodies: nat
    var channels: seq<Channel>
    var inMap: set<nat>
    var snapshot: seq<nat>
    var scheduled: set<nat>

    ghost function Abs(): State
      reads this
    {
      State(shutdown, body, bodies, channels, inMap, snapshot, scheduled)
    }

    constructor ()
      ensures Abs() == INITIAL
    {
      shutdown, body, bodies, channels, inMap, snapshot, scheduled := false, NotStarted, 0, [], {}, [], {};
    }

    method SetPhase(i: nat, phase: Phase)
      requires i < |channels|
      modifies this`channels
      ensures channels == old(channels)[i := old(channels)[i].(phase := phase)]
    {
      channels := channels[i := channels[i].(phase := phase)];
    }

    /** AddChannel's first look at the flag. */
    method FirstCheck(i: nat)
      requires At(Abs(), i, Handed)
      modifies this`channels
      ensures Abs() == Next(old(Abs()), CheckShutdown(i))
    {
      if shutdown {
        channels := channels[i := channels[i].(phase := Done, closed := true)];
        return;
      }
      SetPhase(i, Passed);
    }

    /** AddChannel's critical section: insert, unless the shutdown came first. */
    method InsertLocked(i: nat) returns (closeChannel: bool)
      requires At(Abs(), i, Attached)
      modifies this`channels, this`inMap
      ensures Abs() == Next(old(Abs()), Insert(i)) && closeChannel == shutdown
    {
      closeChannel := false;
      if shutdown {
        closeChannel := true;
        SetPhase(i, Rejected);
      } else {
        inMap := inMap + {i};
        SetPhase(i, Inserted);
      }
    }

    /** RemoveChannel after AddChannel found the channel closed. */
    method RemoveClosed(i: nat)
      requires At(Abs(), i, Removing)
      modifies this`channels, this`inMap
      ensures Abs() == Next(old(Abs()), Remove(i))
    {
      if i in inMap {
        inMap := inMap - {i};
      }
      SetPhase(i, Done);
    }

    /** RemoveChannel from the channel's own callback. */
    method ChannelClosed(i: nat)
      requires i < |channels| && channels[i].callbackPending
      modifies this`channels, this`inMap
      ensures Abs() == Next(old(Abs()), OnClosed(i))
    {
      channels := channels[i := channels[i].(callbackPending := false)];
      if i in inMap {
        inMap := inMap - {i};
      }
    }

    /** The exchange on the flag: only the first caller goes on. */
    method EnterShutdown() returns (first: bool)
      modifies this`shutdown, this`body, this`bodies
      ensures Abs() == Next(old(Abs()), Shutdown) && first == !old(shutdown)
    {
      first := !shutdown;
      shutdown := true;
      if first {
        body, bodies := Exchanged, bodies + 1;
      }
    }

    /** The shutdown's critical section: every channel of the map is taken, the map is cleared. */
    method TakeSnapshot()
      requires body == Exchanged && snapshot == []
      modifies this`snapshot, this`inMap, this`body
      ensures Lists(snapshot, old(inMap)) && |snapshot| == |old(inMap)|
      ensures Abs() == Next(old(Abs()), Snapshot(snapshot))
    {
      var rest := inMap;
      while rest != {}
        invariant inMap == old(inMap) && body == Exchanged
        invariant rest <= inMap && |snapshot| + |rest| == |inMap|
        invariant forall k :: 0 <= k < |snapshot| ==> snapshot[k] in inMap
        invariant forall i :: i in inMap ==> i in rest || i in snapshot
        decreases |rest|
      {
        var i :| i in rest;
        snapshot := snapshot + [i];
        rest := rest - {i};
      }
      inMap, body := {}, Destroying;
    }

    /** What is left of the shutdown body: destroy channel after channel, then hand the work on. */
    method DestroySnapshot()
      requires Inv(Abs()) && body == Destroying
      modifies this`channels, this`snapshot, this`scheduled, this`body
      ensures Inv(Abs()) && body == Finished
      ensures scheduled == old(scheduled) + set i | i in old(snapshot)
    {
      ghost var all := snapshot;
      var n := 0;
      while snapshot != []
        invariant Inv(Abs()) && body == Destroying && shutdown == old(shutdown)
        invariant n <= |all| && snapshot == all[n..]
        invariant scheduled == old(scheduled) + set i | i in all[..n]
        decreases |snapshot|
      {
        StepKeepsInv(Abs(), DestroyNext);
        var i := snapshot[0];
        assert all[..n + 1] == all[..n] + [i];
        channels := channels[i := channels[i].(attached := false, callbackPending := false)];
        scheduled := scheduled + {i};
        snapshot := snapshot[1..];
        n := n + 1;
      }
      assert all[..n] == all;
      StepKeepsInv(Abs(), DestroyNext);
      body := Finished;
    }
  }
}
