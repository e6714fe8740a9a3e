/**
  The inbound path of one data channel, from the native events of its peer connection to the
  application. Every task of the event loop is one step: JavaScript runs it to completion, so
  the only code that interleaves with a task is the user code the task itself calls.
 */
module InboundChannel {
  import opened Wrappers

  type Message = nat

  type PeerId = nat

  /** The peer connection that owns the channel; any other number is another peer. */
  const SELF: PeerId := 0

  datatype ReadyState = Connecting | Open | Closing | Closed

  /** Events of this channel; Note stands for error and bufferedamountlow. */
  datatype NativeEvent = Opened | Msg(message: Message) | CloseEvent | Note

  /** An onmessage callback: a function of this realm or not, native code or not. */
  datatype Handler = Handler(id: nat, ofThisRealm: bool, isNative: bool)

  /** What holds messages, and the history the theorems speak of. */
  datatype Buffers = Buffers(
    pendingNative: seq<NativeEvent>,   // _pendingNativeDataChannelEvents of the channel
    queuedNative: seq<NativeEvent>,    // _queuedNativeEvents
    queue: seq<Message>,               // _queuedMessageEvents
    index: nat,                        // _queuedMessageEventIndex
    delivered: seq<Message>,
    processed: seq<NativeEvent>,       // events that have left the native queues
    log: seq<NativeEvent>)             // the channel's events in arrival order

  /** What user code can change while a task runs. */
  datatype Control = Control(
    readyState: ReadyState,
    registered: bool,                  // the channel is in _channels
    listeners: nat,
    onmessage: Option<Handler>,
    needsTaskYield: bool,
    consumerGateActive: bool,
    flushScheduled: bool,
    dataChannelConsumer: bool,
    announcementQueued: bool,          // its event is in _pendingDataChannelEvents
    dataChannelFlushScheduled: bool,
    operations: map<PeerId, nat>,      // _operationsPending of every peer
    closedPeers: set<PeerId>)

  /** What only the tasks change. */
  datatype Tasks = Tasks(
    pairedPeer: Option<PeerId>,
    waiting: seq<PeerId>,              // peers holding an idle callback of this channel
    posted: nat,                       // idle callbacks already posted
    openEventPending: bool,
    announcementPending: bool,
    drainActive: bool,                 // _nativeEventDrainActive, with its task posted
    gateActive: bool,
    gateTimers: nat,                   // nested timers of the announcement gate still to fire
    consumerTimers: nat,
    closeQueued: bool,
    closePolling: bool)

  datatype State = State(b: Buffers, c: Control, t: Tasks)

  /** What user code can do to the path, from a handler or between tasks. */
  datatype UserAction =
    | SetOnMessage(handler: Option<Handler>)
    | AddListener
    | RemoveListener
    | SetDataChannelConsumer(present: bool)
    | BeginOperation(peer: PeerId)
    | CloseChannel
    | ClosePeer(peer: PeerId)

  /** What the handler of the n-th delivered message does. */
  type UserCode = nat -> seq<UserAction>

  datatype Step =
    | User(action: UserAction)
    | FinishOperation(peer: PeerId)
    | Pair(with: Option<PeerId>)
    | RegisterChannel(state: ReadyState)
    | OtherChannelAnnounced
    | EventArrives(event: NativeEvent)
    | BatchArrives(messages: seq<Message>, code: UserCode)
    | DataChannelFlush(before: seq<UserAction>, actions: seq<UserAction>)
    | DrainNext
    | FlushTask(code: UserCode)
    | IdleCallback
    | GateTimer
    | ConsumerTimer
    | ClosePoll(graceOver: bool, suppressed: bool)
    | ClosedByOtherCause

  // ---- user code ------------------------------------------------------------

  function Operations(c: Control, p: PeerId): nat { if p in c.operations then c.operations[p] else 0 }

  predicate HasConsumer(c: Control) { c.listeners > 0 || c.onmessage.Some? }

  function ReleaseConsumerGate(c: Control): Control {
    if c.consumerGateActive then c.(consumerGateActive := false, flushScheduled := true) else c
  }

  function ScheduleDataChannelFlush(c: Control): Control {
    if c.announcementQueued then c.(dataChannelFlushScheduled := true) else c
  }

  function NeedsTaskYield(h: Option<Handler>): bool { h.Some? && h.value.isNative }

  function HandleClose(c: Control): Control {
    if c.readyState == Closed then c else c.(readyState := Closed, registered := false)
  }

  function Act(c: Control, a: UserAction): Control {
    match a
    case SetOnMessage(h) =>
      var d := c.(onmessage := h, needsTaskYield := NeedsTaskYield(h));
      if h.Some? then ReleaseConsumerGate(d) else d
    case AddListener => ReleaseConsumerGate(c.(listeners := c.listeners + 1))
    case RemoveListener => if c.listeners > 0 then c.(listeners := c.listeners - 1) else c
    case SetDataChannelConsumer(present) =>
      if present then ScheduleDataChannelFlush(c.(dataChannelConsumer := true))
      else c.(dataChannelConsumer := false)
    case BeginOperation(p) => c.(operations := c.operations[p := Operations(c, p) + 1])
    case CloseChannel =>
      if c.readyState == Closing || c.readyState == Closed then c else c.(readyState := Closing)
    case ClosePeer(p) =>
      var d := c.(closedPeers := c.closedPeers + {p});
      if p == SELF then HandleClose(d) else d
  }

  function ActAll(c: Control, actions: seq<UserAction>): Control {
    if actions == [] then c else Act(ActAll(c, actions[..|actions| - 1]), actions[|actions| - 1])
  }

  // ---- the flush loop -------------------------------------------------------

  /** The peer, own or paired, whose pending operations hold messages back. */
  function PendingPeer(c: Control, paired: Option<PeerId>): Option<PeerId> {
    if Operations(c, SELF) > 0 then Some(SELF)
    else if paired.Some? && Operations(c, paired.value) > 0 then paired
    else None
  }

  function AfterOperationsIdle(c: Control, t: Tasks, p: PeerId): Tasks {
    if p in c.closedPeers || Operations(c, p) == 0 then t.(posted := t.posted + 1)
    else t.(waiting := t.waiting + [p])
  }

  predicate CanContinue(c: Control, h: Option<Handler>, yieldToTask: bool) {
    h.Some? && h.value.ofThisRealm && c.onmessage == h && !yieldToTask && c.listeners == 0
  }

  /** No message may be dispatched now. */
  predicate Held(s: State) {
    || PendingPeer(s.c, s.t.pairedPeer).Some?
    || s.t.gateActive
    || (s.c.consumerGateActive && !HasConsumer(s.c))
  }

  const COMPACTION_LIMIT := 1024

  /** The queue after a dispatch: cleared once used up, compacted once its dispatched prefix is long. */
  ghost function Settle(b: Buffers): (r: Buffers)
    requires b.index <= |b.queue|
    ensures r.index <= |r.queue| && |r.queue| - r.index == |b.queue| - b.index
    ensures r.queue == [] <==> b.index == |b.queue|
  {
    if b.index == |b.queue| then b.(queue := [], index := 0)
    else if b.index > COMPACTION_LIMIT then b.(queue := b.queue[b.index..], index := 0)
    else b
  }

  ghost function TakeMessage(b: Buffers): Buffers
    requires b.index < |b.queue|
  {
    b.(index := b.index + 1, delivered := b.delivered + [b.queue[b.index]])
  }

  /** One message is dispatched; its handlers run user code. */
  ghost function Dispatch(s: State, code: UserCode): State
    requires s.b.index < |s.b.queue|
  {
    State(Settle(TakeMessage(s.b)), ActAll(s.c.(consumerGateActive := false), code(|s.b.delivered|)), s.t)
  }

  ghost function ScheduleFlush(s: State): State { s.(c := s.c.(flushScheduled := true)) }

  /** _flushQueuedMessageEvents, to the end of the task. */
  ghost function Flush(s: State, code: UserCode): State
    decreases |s.b.queue| - s.b.index
  {
    if s.c.readyState == Closed then s.(b := s.b.(queue := [], index := 0))
    else if PendingPeer(s.c, s.t.pairedPeer).Some? then
      s.(t := AfterOperationsIdle(s.c, s.t, PendingPeer(s.c, s.t.pairedPeer).value))
    else if Held(s) then s
    else if s.b.index >= |s.b.queue| then State(s.b.(index := 0), s.c.(consumerGateActive := false), s.t)
    else
      var u := Dispatch(s, code);
      if u.b.queue == [] then u
      else if CanContinue(u.c, s.c.onmessage, s.c.needsTaskYield) then Flush(u, code)
      else ScheduleFlush(u)
  }

  function Events(messages: seq<Message>): (e: seq<NativeEvent>)
    ensures |e| == |messages|
  {
    seq(|messages|, i requires 0 <= i < |messages| => Msg(messages[i]))
  }

  /** Messages leave the native side for the message queue. */
  ghost function Enqueue(b: Buffers, messages: seq<Message>): Buffers {
    b.(queue := b.queue + messages, processed := b.processed + Events(messages))
  }

  ghost function Deliver(b: Buffers, m: Message): Buffers {
    b.(processed := b.processed + [Msg(m)], delivered := b.delivered + [m])
  }

  ghost function DeliverDirectly(s: State, m: Message, code: UserCode): State {
    State(Deliver(s.b, m), ActAll(s.c, code(|s.b.delivered|)), s.t)
  }

  /** The direct path of _dispatchNativeMessageBatch once a handler is chosen. */
  ghost function DispatchBatch(s: State, messages: seq<Message>, h: Option<Handler>, yieldToTask: bool,
                               code: UserCode): State
    decreases |messages|
  {
    if messages == [] then s
    else
      var u := DeliverDirectly(s, messages[0], code);
      if u.c.readyState == Closed then u
      else if |messages| > 1 && !CanContinue(u.c, h, yieldToTask) then
        ScheduleFlush(u.(b := Enqueue(u.b, messages[1..])))
      else DispatchBatch(u, messages[1..], h, yieldToTask, code)
  }

  /** _handleNativeEventBatch for a batch of messages of this channel. */
  ghost function HandleBatch(s: State, messages: seq<Message>, code: UserCode): State {
    if messages == [] then s
    else
      var l := s.b.(log := s.b.log + Events(messages));
      if !s.c.registered then s.(b := l.(pendingNative := l.pendingNative + Events(messages)))
      else if s.t.announcementPending || s.t.drainActive then
        s.(b := l.(queuedNative := l.queuedNative + Events(messages)))
      else if s.c.readyState == Closed then s.(b := l)
      else if l.queue != [] || Held(s) then ScheduleFlush(s.(b := Enqueue(l, messages)))
      else
        var c := s.c.(consumerGateActive := false);
        if !CanContinue(c, c.onmessage, c.needsTaskYield)
        then ScheduleFlush(State(Enqueue(l, messages), c, s.t))
        else DispatchBatch(State(l, c, s.t), messages, c.onmessage, c.needsTaskYield, code)
  }

  // ---- single events, announcement, close ----------------------------------

  ghost function Done(b: Buffers, e: NativeEvent): Buffers { b.(processed := b.processed + [e]) }

  ghost function Carried(e: NativeEvent): seq<Message> { if e.Msg? then [e.message] else [] }

  /** An event leaves the native side; a message joins the message queue. */
  ghost function Absorb(b: Buffers, e: NativeEvent): Buffers {
    b.(processed := b.processed + [e], queue := b.queue + Carried(e))
  }

  ghost function ControlAfter(c: Control, e: NativeEvent, openEventPending: bool): Control {
    if e == Opened && (openEventPending || c.readyState == Connecting) then c.(readyState := Open)
    else if e.Msg? then c.(flushScheduled := true)
    else c
  }

  /** A close event starts the close poll once. */
  ghost function TasksAfter(t: Tasks, e: NativeEvent): Tasks {
    if e == CloseEvent && !t.closeQueued then t.(closeQueued := true, closePolling := true) else t
  }

  /** The channel's _handleNativeEvent past its queueing prologue. */
  ghost function Process(s: State, e: NativeEvent): State {
    State(Absorb(s.b, e), ControlAfter(s.c, e, s.t.openEventPending), TasksAfter(s.t, e))
  }

  /** One native event; an open event of a channel still held back is applied at once. */
  ghost function HandleEvent(s: State, e: NativeEvent): State {
    var l := s.b.(log := s.b.log + [e]);
    if !s.c.registered then s.(b := l.(pendingNative := l.pendingNative + [e]))
    else if s.t.announcementPending || s.t.drainActive then
      if e == Opened then s.(c := s.c.(readyState := Open), t := s.t.(openEventPending := true))
      else s.(b := l.(queuedNative := l.queuedNative + [e]))
    else Process(s.(b := l), e)
  }

  ghost function GateUntilConsumer(s: State): State {
    if HasConsumer(s.c) then s
    else s.(c := s.c.(consumerGateActive := true), t := s.t.(consumerTimers := s.t.consumerTimers + 1))
  }

  ghost function GateAfterAnnouncement(s: State): State {
    if s.t.gateActive then s else s.(t := s.t.(gateActive := true, gateTimers := 2))
  }

  /** The announcement of this channel; the datachannel handler runs user code. */
  ghost function Announce(s: State, actions: seq<UserAction>): State {
    var g := GateUntilConsumer(s);
    var d := State(g.b, ActAll(g.c, actions), g.t.(announcementPending := false, openEventPending := false));
    StartDrain(GateUntilConsumer(GateAfterAnnouncement(d)))
  }

  ghost function StartDrain(s: State): State {
    if s.b.queuedNative == [] then s else s.(t := s.t.(drainActive := true))
  }

  /** The announcement task: channels announced before this one have run user code already. */
  ghost function AnnouncementTask(s: State, before: seq<UserAction>, actions: seq<UserAction>): State {
    var u := s.(c := s.c.(dataChannelFlushScheduled := false));
    if SELF in u.c.closedPeers || !u.c.dataChannelConsumer || !u.c.announcementQueued then u
    else
      var v := u.(c := ActAll(u.c.(announcementQueued := false), before));
      if SELF in v.c.closedPeers then v else Announce(v, actions)
  }

  function Without(peers: seq<PeerId>, p: PeerId): (r: seq<PeerId>)
    ensures |r| <= |peers|
    ensures forall i :: 0 <= i < |r| ==> r[i] != p && r[i] in peers
  {
    if peers == [] then []
    else Without(peers[..|peers| - 1], p) + if peers[|peers| - 1] == p then [] else [peers[|peers| - 1]]
  }

  /** _finishPendingOperation: the last operation posts the idle callbacks of its peer. */
  ghost function Finish(s: State, p: PeerId): State {
    if Operations(s.c, p) == 0 then s
    else
      var c := s.c.(operations := s.c.operations[p := Operations(s.c, p) - 1]);
      if Operations(c, p) > 0 then s.(c := c)
      else
        var rest := Without(s.t.waiting, p);
        State(s.b, c, s.t.(waiting := rest, posted := s.t.posted + |s.t.waiting| - |rest|))
  }

  ghost predicate CloseActs(s: State, graceOver: bool) {
    && s.t.closePolling && s.c.readyState != Closed && graceOver
    && !s.t.gateActive && !s.c.flushScheduled && s.b.queue == []
  }

  /** One firing of the close poll; a suppressed close is dropped, any other one closes. */
  ghost function Poll(s: State, graceOver: bool, suppressed: bool): State {
    if !s.t.closePolling then s
    else if s.c.readyState == Closed then s.(t := s.t.(closePolling := false))
    else if !CloseActs(s, graceOver) then s
    else
      var c := if suppressed then s.c
               else if s.c.readyState == Open then s.c.(readyState := Closing)
               else HandleClose(s.c);
      State(s.b, c, s.t.(closePolling := false, closeQueued := false))
  }

  ghost function Drain(s: State): State {
    if s.b.queuedNative == [] then s.(t := s.t.(drainActive := false))
    else
      var u := Process(s.(b := s.b.(queuedNative := s.b.queuedNative[1..])), s.b.queuedNative[0]);
      u.(t := u.t.(drainActive := u.b.queuedNative != []))
  }

  ghost function Register(s: State, state: ReadyState): State {
    State(s.b.(queuedNative := s.b.pendingNative, pendingNative := []),
          ScheduleDataChannelFlush(s.c.(registered := true, readyState := state, announcementQueued := true)),
          s.t.(openEventPending := state == Open, announcementPending := true))
  }

  ghost function RunIdleCallback(s: State): State {
    if s.t.posted == 0 then s else ScheduleFlush(s.(t := s.t.(posted := s.t.posted - 1)))
  }

  /** One of the two nested timers of the announcement gate. */
  ghost function FireGateTimer(s: State): State {
    if s.t.gateTimers == 0 then s
    else if s.t.gateTimers == 1 then ScheduleFlush(s.(t := s.t.(gateTimers := 0, gateActive := false)))
    else s.(t := s.t.(gateTimers := s.t.gateTimers - 1))
  }

  ghost function FireConsumerTimer(s: State): State {
    if s.t.consumerTimers == 0 then s
    else State(s.b, ReleaseConsumerGate(s.c), s.t.(consumerTimers := s.t.consumerTimers - 1))
  }

  ghost function Next(s: State, step: Step): State {
    match step
    case User(a) => s.(c := Act(s.c, a))
    case FinishOperation(p) => Finish(s, p)
    case Pair(p) => s.(t := s.t.(pairedPeer := p))
    case RegisterChannel(state) =>   // once: the channel object is made by it
      if s.c.registered || s.c.readyState != Connecting then s else Register(s, state)
    case OtherChannelAnnounced => s.(c := s.c.(dataChannelFlushScheduled := true))
    case EventArrives(e) => HandleEvent(s, e)
    case BatchArrives(messages, code) => HandleBatch(s, messages, code)
    case DataChannelFlush(before, actions) =>
      if !s.c.dataChannelFlushScheduled then s else AnnouncementTask(s, before, actions)
    case DrainNext => if s.t.drainActive then Drain(s) else s
    case FlushTask(code) =>
      if !s.c.flushScheduled then s else Flush(s.(c := s.c.(flushScheduled := false)), code)
    case IdleCallback => RunIdleCallback(s)
    case GateTimer => FireGateTimer(s)
    case ConsumerTimer => FireConsumerTimer(s)
    case ClosePoll(graceOver, suppressed) => Poll(s, graceOver, suppressed)
    case ClosedByOtherCause => s.(c := HandleClose(s.c))
  }

  /** A channel created locally is registered from the start and never announced. */
  ghost function Initial(createdLocally: bool): State {
    State(Buffers([], [], [], 0, [], [], []),
          Control(Connecting, createdLocally, 0, None, false, false, false, false, false, false, map[], {}),
          Tasks(None, [], 0, false, false, false, false, 0, 0, false, false))
  }

  ghost function Run(s: State, steps: seq<Step>): State {
    if steps == [] then s else Next(Run(s, steps[..|steps| - 1]), steps[|steps| - 1])
  }

  /** The channel is not closed at any point of the run. */
  ghost predicate StaysUnclosed(s: State, steps: seq<Step>) {
    forall n :: 0 <= n <= |steps| ==> Run(s, steps[..n]).c.readyState != Closed
  }

  ghost function ArrivedIn(step: Step): seq<NativeEvent> {
    match step
    case EventArrives(e) => [e]
    case BatchArrives(messages, _) => Events(messages)
    case _ => []
  }

  /** The channel's native events, in the order in which they arrive. */
  ghost function Arrived(steps: seq<Step>): seq<NativeEvent> {
    if steps == [] then [] else Arrived(steps[..|steps| - 1]) + ArrivedIn(steps[|steps| - 1])
  }

  // ---- the invariant --------------------------------------------------------

  ghost function Messages(events: seq<NativeEvent>): seq<Message> {
    if events == [] then []
    else
      var n := |events| - 1;
      Messages(events[..n]) + match events[n] case Msg(m) => [m] case _ => []
  }

  ghost function Undispatched(b: Buffers): seq<Message>
    requires b.index <= |b.queue|
  {
    b.queue[b.index..]
  }

  /**
    Nothing lost, nothing twice, nothing reordered, across all four buffers; inFlight are
    the messages of a batch that is being handed over right now.
   */
  ghost predicate InOrder(b: Buffers, inFlight: seq<Message>) {
    && b.index <= |b.queue|
    && b.processed + Events(inFlight) + b.queuedNative + b.pendingNative == b.log
    && Messages(b.processed) == b.delivered + Undispatched(b)
    && (b.index == |b.queue| ==> b.queue == [])
  }

  /** Which buffer may be in use when. */
  ghost predicate Placed(s: State) {
    && (s.c.registered ==> s.b.pendingNative == [])
    && (!s.c.registered ==> s.b.queuedNative == [] && !s.t.announcementPending
                            && !s.t.drainActive && !s.c.announcementQueued)
    && (s.b.queuedNative != [] ==> s.t.announcementPending || s.t.drainActive)
    && (s.t.announcementPending <==> s.c.announcementQueued)
    && (s.t.closePolling ==> CloseEvent in s.b.processed)
  }

  /** Something that is still to happen will schedule or run the flush. */
  ghost predicate WakeUp(c: Control, t: Tasks) {
    c.flushScheduled || t.gateActive || c.consumerGateActive || t.waiting != [] || t.posted > 0
  }

  /** Everything a flush waits for is itself on its way. */
  ghost predicate Sources(c: Control, t: Tasks) {
    && (t.gateActive <==> t.gateTimers > 0)
    && (c.consumerGateActive ==> t.consumerTimers > 0 && !HasConsumer(c))
    && (forall i :: 0 <= i < |t.waiting| ==> Operations(c, t.waiting[i]) > 0)
    && (c.announcementQueued && c.dataChannelConsumer ==> c.dataChannelFlushScheduled)
    && SELF !in c.closedPeers
  }

  /** Holds between tasks; a closed channel has nothing left to promise. */
  ghost predicate Inv(s: State) {
    && s.b.index <= |s.b.queue|
    && (s.c.readyState != Closed ==>
          InOrder(s.b, []) && Placed(s) && Sources(s.c, s.t) && (s.b.queue != [] ==> WakeUp(s.c, s.t)))
  }

  lemma {:induction false} MessagesAppend(a: seq<NativeEvent>, b: seq<NativeEvent>)
    ensures Messages(a + b) == Messages(a) + Messages(b)
    decreases |b|
  {
    if b == [] {
      assert a + b == a;
    } else {
      assert (a + b)[..|a + b| - 1] == a + b[..|b| - 1];
      MessagesAppend(a, b[..|b| - 1]);
    }
  }

  lemma {:induction false} MessagesOfEvents(messages: seq<Message>)
    ensures Messages(Events(messages)) == messages
  {
    if messages != [] {
      var n := |messages| - 1;
      MessagesOfEvents(messages[..n]);
      assert Events(messages)[..n] == Events(messages[..n]);
    }
  }

  /** What user code leaves as it is. */
  ghost predicate UserKeeps(c: Control, d: Control, t: Tasks) {
    && d.announcementQueued == c.announcementQueued
    && (d.readyState != Closed ==> c.readyState != Closed && d.registered == c.registered)
    && (d.readyState != Closed && Sources(c, t) ==> Sources(d, t))
    && (WakeUp(c, t) ==> WakeUp(d, t))
  }

  /** The same, field by field. */
  ghost predicate Kept(c: Control, d: Control) {
    && (c.consumerGateActive ==> d.consumerGateActive || d.flushScheduled)
    && (c.flushScheduled ==> d.flushScheduled)
    && (d.consumerGateActive ==> c.consumerGateActive && (!HasConsumer(c) ==> !HasConsumer(d)))
    && (forall p :: Operations(c, p) <= Operations(d, p))
    && (d.readyState != Closed ==> c.readyState != Closed && d.registered == c.registered)
    && (d.readyState != Closed && SELF in d.closedPeers ==> SELF in c.closedPeers)
    && d.announcementQueued == c.announcementQueued
    && (c.dataChannelFlushScheduled ==> d.dataChannelFlushScheduled)
    && (d.dataChannelConsumer && d.announcementQueued ==> c.dataChannelConsumer || d.dataChannelFlushScheduled)
  }

  lemma ReleaseKeeps(c: Control)
    ensures Kept(c, ReleaseConsumerGate(c)) && !ReleaseConsumerGate(c).consumerGateActive
  {
  }

  lemma SetOnMessageKeeps(c: Control, h: Option<Handler>)
    ensures Kept(c, Act(c, SetOnMessage(h)))
  {
    var d := c.(onmessage := h, needsTaskYield := NeedsTaskYield(h));
    ReleaseKeeps(d);
  }

  lemma AddListenerKeeps(c: Control)
    ensures Kept(c, Act(c, AddListener))
  {
    ReleaseKeeps(c.(listeners := c.listeners + 1));
  }

  lemma RemoveListenerKeeps(c: Control)
    ensures Kept(c, Act(c, RemoveListener))
  {
  }

  lemma DataChannelConsumerKeeps(c: Control, present: bool)
    ensures Kept(c, Act(c, SetDataChannelConsumer(present)))
  {
  }

  lemma CloseChannelKeeps(c: Control)
    ensures Kept(c, Act(c, CloseChannel))
  {
  }

  lemma ClosePeerKeeps(c: Control, p: PeerId)
    ensures Kept(c, Act(c, ClosePeer(p)))
  {
    var d := c.(closedPeers := c.closedPeers + {p});
    var e := Act(c, ClosePeer(p));
    if p == SELF {
      assert e == HandleClose(d);
      assert e.readyState == Closed;
    } else {
      assert e == d;
    }
  }

  lemma BeginOperationKeeps(c: Control, p: PeerId)
    ensures Kept(c, Act(c, BeginOperation(p)))
  {
  }

  lemma ActKeeps(c: Control, a: UserAction, t: Tasks)
    ensures UserKeeps(c, Act(c, a), t)
  {
    match a {
      case SetOnMessage(h) => SetOnMessageKeeps(c, h);
      case AddListener => AddListenerKeeps(c);
      case RemoveListener => RemoveListenerKeeps(c);
      case SetDataChannelConsumer(present) => DataChannelConsumerKeeps(c, present);
      case BeginOperation(p) => BeginOperationKeeps(c, p);
      case CloseChannel => CloseChannelKeeps(c);
      case ClosePeer(p) => ClosePeerKeeps(c, p);
    }
    KeptIsEnough(c, Act(c, a), t);
  }

  lemma KeptIsEnough(c: Control, d: Control, t: Tasks)
    requires Kept(c, d)
    ensures UserKeeps(c, d, t)
  {
    forall i | 0 <= i < |t.waiting| ensures Operations(c, t.waiting[i]) <= Operations(d, t.waiting[i]) {
    }
  }

  lemma {:induction false} ActAllKeeps(c: Control, actions: seq<UserAction>, t: Tasks)
    ensures UserKeeps(c, ActAll(c, actions), t)
  {
    if actions != [] {
      ActAllKeeps(c, actions[..|actions| - 1], t);
      ActKeeps(ActAll(c, actions[..|actions| - 1]), actions[|actions| - 1], t);
    }
  }

  lemma EnqueueInOrder(b: Buffers, messages: seq<Message>)
    requires InOrder(b, messages) && messages != []
    ensures InOrder(Enqueue(b, messages), [])
  {
    MessagesAppend(b.processed, Events(messages));
    MessagesOfEvents(messages);
    var e := Enqueue(b, messages);
    assert Undispatched(e) == Undispatched(b) + messages;
    assert e.processed + Events([]) + e.queuedNative + e.pendingNative == b.log;
  }

  lemma DeliverInOrder(b: Buffers, messages: seq<Message>)
    requires InOrder(b, messages) && messages != [] && b.queue == []
    ensures InOrder(Deliver(b, messages[0]), messages[1..])
  {
    MessagesAppend(b.processed, Events([messages[0]]));
    MessagesOfEvents([messages[0]]);
    assert Events(messages) == [Msg(messages[0])] + Events(messages[1..]);
    assert Events([messages[0]]) == [Msg(messages[0])];
  }

  lemma SettleInOrder(b: Buffers)
    requires b.index <= |b.queue|
    requires b.processed + Events([]) + b.queuedNative + b.pendingNative == b.log
    requires Messages(b.processed) == b.delivered + Undispatched(b)
    ensures InOrder(Settle(b), [])
  {
    assert Undispatched(Settle(b)) == Undispatched(b);
  }

  lemma TakeInOrder(b: Buffers)
    requires InOrder(b, []) && b.index < |b.queue|
    ensures InOrder(Settle(TakeMessage(b)), [])
  {
    var r := TakeMessage(b);
    assert b.delivered + Undispatched(b) == r.delivered + Undispatched(r);
    SettleInOrder(r);
  }

  lemma UserCodeKeeps(s: State, actions: seq<UserAction>)
    requires Placed(s) && Sources(s.c, s.t)
    ensures var u := s.(c := ActAll(s.c, actions));
            u.c.readyState != Closed ==> s.c.readyState != Closed && Placed(u) && Sources(u.c, u.t)
  {
    ActAllKeeps(s.c, actions, s.t);
  }

  lemma DispatchKeeps(s: State, code: UserCode)
    requires s.c.readyState != Closed && InOrder(s.b, []) && s.b.index < |s.b.queue| && Placed(s) && Sources(s.c, s.t)
    ensures var u := Dispatch(s, code);
            u.c.readyState != Closed ==> InOrder(u.b, []) && Placed(u) && Sources(u.c, u.t)
  {
    TakeInOrder(s.b);
    UserCodeKeeps(s.(c := s.c.(consumerGateActive := false)), code(|s.b.delivered|));
  }

  lemma AfterOperationsIdleWakesUp(c: Control, t: Tasks, p: PeerId)
    requires Sources(c, t)
    ensures Sources(c, AfterOperationsIdle(c, t, p)) && WakeUp(c, AfterOperationsIdle(c, t, p))
  {
    var u := AfterOperationsIdle(c, t, p);
    if p in c.closedPeers || Operations(c, p) == 0 {
      assert u.waiting == t.waiting;
    } else {
      assert u.waiting == t.waiting + [p];
    }
  }

  /** The flush loop, from any state in which only the queue's own wake-up may be missing. */
  lemma {:induction false} FlushKeepsInv(s: State, code: UserCode)
    requires s.b.index <= |s.b.queue|
    requires s.c.readyState != Closed ==> InOrder(s.b, []) && Placed(s) && Sources(s.c, s.t)
    ensures Inv(Flush(s, code))
    decreases |s.b.queue| - s.b.index
  {
    if s.c.readyState == Closed {
    } else if PendingPeer(s.c, s.t.pairedPeer).Some? {
      AfterOperationsIdleWakesUp(s.c, s.t, PendingPeer(s.c, s.t.pairedPeer).value);
    } else if !Held(s) && s.b.index < |s.b.queue| {
      DispatchKeeps(s, code);
      var u := Dispatch(s, code);
      if u.b.queue != [] && CanContinue(u.c, s.c.onmessage, s.c.needsTaskYield) {
        FlushKeepsInv(u, code);
      }
    }
  }

  /** The direct path: the queue is empty and the batch is all that is under way. */
  lemma {:induction false} DispatchBatchKeepsInv(s: State, messages: seq<Message>, h: Option<Handler>,
                                                 yieldToTask: bool, code: UserCode)
    requires s.b.queue == [] && s.c.readyState != Closed && InOrder(s.b, messages) && Placed(s) && Sources(s.c, s.t)
    ensures Inv(DispatchBatch(s, messages, h, yieldToTask, code))
    decreases |messages|
  {
    if messages != [] {
      var u := DeliverDirectly(s, messages[0], code);
      DeliverDirectlyKeeps(s, messages, code);
      if u.c.readyState == Closed {
      } else if |messages| > 1 && !CanContinue(u.c, h, yieldToTask) {
        EnqueueInOrder(u.b, messages[1..]);
      } else {
        DispatchBatchKeepsInv(u, messages[1..], h, yieldToTask, code);
      }
    }
  }

  lemma DeliverDirectlyKeeps(s: State, messages: seq<Message>, code: UserCode)
    requires s.b.queue == [] && s.c.readyState != Closed && InOrder(s.b, messages) && Placed(s) && Sources(s.c, s.t)
    requires messages != []
    ensures var u := DeliverDirectly(s, messages[0], code);
            && u.b.queue == []
            && (u.c.readyState != Closed ==> InOrder(u.b, messages[1..]) && Placed(u) && Sources(u.c, u.t))
  {
    UserCodeKeeps(s, code(|s.b.delivered|));
    DeliverInOrder(s.b, messages);
  }

  lemma LogBatch(b: Buffers, messages: seq<Message>)
    requires InOrder(b, []) && b.pendingNative == [] && b.queuedNative == []
    ensures InOrder(b.(log := b.log + Events(messages)), messages)
  {
    assert b.processed + Events([]) == b.processed;
  }

  /** Events that join the native buffer in use keep the order. */
  lemma LogQueued(b: Buffers, events: seq<NativeEvent>)
    requires InOrder(b, [])
    ensures InOrder(b.(log := b.log + events, pendingNative := b.pendingNative + events), [])
    ensures b.pendingNative == [] ==>
              InOrder(b.(log := b.log + events, queuedNative := b.queuedNative + events), [])
  {
    assert b.processed + Events([]) == b.processed;
    assert b.processed + b.queuedNative + (b.pendingNative + events)
        == b.processed + b.queuedNative + b.pendingNative + events;
    if b.pendingNative == [] {
      assert b.processed + b.queuedNative + b.pendingNative == b.processed + b.queuedNative;
      assert b.processed + (b.queuedNative + events) + b.pendingNative == b.processed + b.queuedNative + events;
    }
  }

  lemma HandleBatchKeepsInv(s: State, messages: seq<Message>, code: UserCode)
    requires Inv(s)
    ensures Inv(HandleBatch(s, messages, code))
  {
    if messages == [] || s.c.readyState == Closed {
      return;
    }
    LogQueued(s.b, Events(messages));
    if s.c.registered && !s.t.announcementPending && !s.t.drainActive {
      var l := s.b.(log := s.b.log + Events(messages));
      var c := s.c.(consumerGateActive := false);
      LogBatch(s.b, messages);
      if s.b.queue != [] || Held(s) || !CanContinue(c, c.onmessage, c.needsTaskYield) {
        EnqueueInOrder(l, messages);
      } else {
        DispatchBatchKeepsInv(State(l, c, s.t), messages, c.onmessage, c.needsTaskYield, code);
      }
    }
  }

  /** Everything InOrder asks, with event e between the native queues and the message queue. */
  ghost predicate InOrderBut(b: Buffers, e: NativeEvent) {
    && b.index <= |b.queue|
    && b.processed + [e] + b.queuedNative + b.pendingNative == b.log
    && Messages(b.processed) == b.delivered + Undispatched(b)
    && (b.index == |b.queue| ==> b.queue == [])
  }

  lemma CarriedMessages(b: Buffers, e: NativeEvent)
    requires b.index <= |b.queue|
    requires Messages(b.processed) == b.delivered + Undispatched(b)
    ensures var a := Absorb(b, e); Messages(a.processed) == a.delivered + Undispatched(a)
  {
    MessagesAppend(b.processed, [e]);
    assert [e][..0] == [];
    assert Messages([e]) == Carried(e);
    assert Undispatched(Absorb(b, e)) == Undispatched(b) + Carried(e);
  }

  lemma AbsorbInOrder(b: Buffers, e: NativeEvent)
    requires InOrderBut(b, e)
    ensures InOrder(Absorb(b, e), [])
  {
    CarriedMessages(b, e);
    assert Absorb(b, e).processed + Events([]) == b.processed + [e];
  }

  lemma ProcessKeepsSources(s: State, e: NativeEvent)
    requires s.c.readyState != Closed && Sources(s.c, s.t)
    ensures var u := Process(s, e); Sources(u.c, u.t) && (WakeUp(s.c, s.t) || e.Msg? ==> WakeUp(u.c, u.t))
  {
    ControlAfterKeeps(s.c, e, s.t.openEventPending);
    TasksAfterKeeps(s.t, e);
  }

  lemma ControlAfterKeeps(c: Control, e: NativeEvent, openEventPending: bool)
    ensures var d := ControlAfter(c, e, openEventPending);
            d == c.(readyState := d.readyState, flushScheduled := c.flushScheduled || e.Msg?)
  {
  }

  lemma TasksAfterKeeps(t: Tasks, e: NativeEvent)
    ensures var u := TasksAfter(t, e); u == t.(closeQueued := u.closeQueued, closePolling := u.closePolling)
  {
  }

  lemma ProcessKeepsPlaces(s: State, e: NativeEvent)
    requires Placed(s)
    ensures Placed(Process(s, e))
  {
    assert e == CloseEvent ==> CloseEvent in Process(s, e).b.processed;
  }

  lemma ProcessKeepsInv(s: State, e: NativeEvent)
    requires s.c.readyState != Closed && Placed(s) && Sources(s.c, s.t) && (s.b.queue != [] ==> WakeUp(s.c, s.t))
    requires InOrderBut(s.b, e)
    ensures Inv(Process(s, e))
  {
    AbsorbInOrder(s.b, e);
    ProcessKeepsSources(s, e);
    ProcessKeepsPlaces(s, e);
    assert Process(s, e).b.queue == s.b.queue + Carried(e);
  }

  lemma HandleEventKeepsInv(s: State, e: NativeEvent)
    requires Inv(s) && s.c.readyState != Closed
    ensures Inv(HandleEvent(s, e))
  {
    LogQueued(s.b, [e]);
    if s.c.registered && !s.t.announcementPending && !s.t.drainActive {
      ProcessKeepsInv(s.(b := s.b.(log := s.b.log + [e])), e);
    } else if s.c.registered && e == Opened {
    }
  }

  lemma GateUntilConsumerKeeps(s: State)
    requires Sources(s.c, s.t)
    ensures var u := GateUntilConsumer(s); Sources(u.c, u.t) && (WakeUp(s.c, s.t) ==> WakeUp(u.c, u.t))
  {
  }

  lemma AnnounceKeepsInv(s: State, actions: seq<UserAction>)
    requires s.c.readyState != Closed && s.c.registered && !s.c.announcementQueued
    requires InOrder(s.b, []) && Sources(s.c, s.t) && s.b.pendingNative == []
    requires s.t.closePolling ==> CloseEvent in s.b.processed
    ensures Inv(Announce(s, actions))
  {
    var g := GateUntilConsumer(s);
    GateUntilConsumerKeeps(s);
    var t := g.t.(announcementPending := false, openEventPending := false);
    ActAllKeeps(g.c, actions, g.t);
    var d := State(g.b, ActAll(g.c, actions), t);
    assert Announce(s, actions) == StartDrain(GateUntilConsumer(GateAfterAnnouncement(d)));
    if d.c.readyState != Closed {
      assert Sources(d.c, d.t) && d.c.registered && !d.c.announcementQueued;
      AnnouncedKeepsInv(d);
    } else {
      AnnouncedClosed(d);
    }
  }

  lemma AnnouncedClosed(d: State)
    requires d.c.readyState == Closed && d.b.index <= |d.b.queue|
    ensures Inv(StartDrain(GateUntilConsumer(GateAfterAnnouncement(d))))
  {
  }

  /** What follows the datachannel event. */
  lemma AnnouncedKeepsInv(d: State)
    requires d.c.readyState != Closed && d.c.registered && !d.c.announcementQueued && !d.t.announcementPending
    requires InOrder(d.b, []) && Sources(d.c, d.t) && d.b.pendingNative == []
    requires d.t.closePolling ==> CloseEvent in d.b.processed
    ensures Inv(StartDrain(GateUntilConsumer(GateAfterAnnouncement(d))))
  {
    var e := GateAfterAnnouncement(d);
    assert Sources(e.c, e.t);
    GateUntilConsumerKeeps(e);
  }

  lemma AnnouncementTaskKeepsInv(s: State, before: seq<UserAction>, actions: seq<UserAction>)
    requires Inv(s) && s.c.readyState != Closed && s.c.dataChannelFlushScheduled
    ensures Inv(AnnouncementTask(s, before, actions))
  {
    var u := s.(c := s.c.(dataChannelFlushScheduled := false));
    if u.c.dataChannelConsumer && u.c.announcementQueued {
      var c := u.c.(announcementQueued := false);
      ActAllKeeps(c, before, u.t);
      var v := u.(c := ActAll(c, before));
      if SELF in v.c.closedPeers {
        assert v.c.readyState == Closed;
      } else if v.c.readyState == Closed {
        ActAllKeeps(GateUntilConsumer(v).c, actions, v.t);
      } else {
        AnnounceKeepsInv(v, actions);
      }
    }
  }

  lemma RegisterKeepsInv(s: State, state: ReadyState)
    requires Inv(s) && s.c.readyState != Closed && !s.c.registered
    ensures Inv(Register(s, state))
  {
    assert s.b.queuedNative + s.b.pendingNative == s.b.pendingNative + [];
    assert s.b.processed + Events([]) + s.b.queuedNative + s.b.pendingNative
        == s.b.processed + Events([]) + s.b.pendingNative + [];
  }

  lemma FinishKeepsInv(s: State, p: PeerId)
    requires Inv(s) && s.c.readyState != Closed
    ensures Inv(Finish(s, p))
  {
    if Operations(s.c, p) > 0 {
      var u := Finish(s, p);
      forall i | 0 <= i < |u.t.waiting| ensures Operations(u.c, u.t.waiting[i]) > 0 {
        if u.t.waiting != s.t.waiting {
          assert u.t.waiting[i] in s.t.waiting;
        } else {
          assert Operations(s.c, s.t.waiting[i]) > 0;
        }
      }
    }
  }

  lemma DrainKeepsInv(s: State)
    requires Inv(s) && s.c.readyState != Closed && s.t.drainActive
    ensures Inv(Drain(s))
  {
    if s.b.queuedNative != [] {
      var e := s.b.queuedNative[0];
      var u := s.(b := s.b.(queuedNative := s.b.queuedNative[1..]));
      assert s.b.queuedNative == [e] + u.b.queuedNative;
      assert s.b.processed + Events([]) == s.b.processed;
      assert InOrderBut(u.b, e);
      ProcessKeepsInv(u, e);
    }
  }

  lemma StepKeepsInv(s: State, step: Step)
    requires Inv(s) && s.c.readyState != Closed
    ensures Inv(Next(s, step))
  {
    match step
    case User(a) => ActKeeps(s.c, a, s.t);
    case FinishOperation(p) => FinishKeepsInv(s, p);
    case RegisterChannel(state) => if !s.c.registered { RegisterKeepsInv(s, state); }
    case EventArrives(e) => HandleEventKeepsInv(s, e);
    case BatchArrives(messages, code) => HandleBatchKeepsInv(s, messages, code);
    case DataChannelFlush(before, actions) =>
      if s.c.dataChannelFlushScheduled { AnnouncementTaskKeepsInv(s, before, actions); }
    case DrainNext => if s.t.drainActive { DrainKeepsInv(s); }
    case FlushTask(code) =>
      if s.c.flushScheduled { FlushKeepsInv(s.(c := s.c.(flushScheduled := false)), code); }
    case Pair(_) => SmallStepKeepsInv(s, step);
    case OtherChannelAnnounced => SmallStepKeepsInv(s, step);
    case ClosePoll(_, _) => SmallStepKeepsInv(s, step);
    case ClosedByOtherCause => SmallStepKeepsInv(s, step);
    case IdleCallback => IdleCallbackKeepsInv(s);
    case GateTimer => GateTimerKeepsInv(s);
    case ConsumerTimer => ConsumerTimerKeepsInv(s);
  }

  lemma IdleCallbackKeepsInv(s: State)
    requires Inv(s) && s.c.readyState != Closed
    ensures Inv(RunIdleCallback(s))
  {
  }

  lemma GateTimerKeepsInv(s: State)
    requires Inv(s) && s.c.readyState != Closed
    ensures Inv(FireGateTimer(s))
  {
  }

  lemma ConsumerTimerKeepsInv(s: State)
    requires Inv(s) && s.c.readyState != Closed
    ensures Inv(FireConsumerTimer(s))
  {
  }

  lemma SmallStepKeepsInv(s: State, step: Step)
    requires Inv(s) && s.c.readyState != Closed
    requires step.Pair? || step.OtherChannelAnnounced? || step.ClosePoll? || step.ClosedByOtherCause?
    ensures Inv(Next(s, step))
  {
    match step
    case Pair(_) =>
    case ClosePoll(_, _) =>
    case OtherChannelAnnounced =>
    case ClosedByOtherCause =>
  }
}
