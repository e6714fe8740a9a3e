/**
  Both halves of the inbound path together: the native dispatcher hands batches and single
  events to the JavaScript callback, which routes those of one channel into its buffers.
 */
module InboundPipeline {
  import opened Wrappers
  import D = EventDispatcher
  import N = DispatcherProtocol
  import C = InboundChannel
  import O = InboundOrder
  import P = InboundProgress

  datatype State = State(native: D.State, channel: C.State)

  /** The JavaScript thread takes an item and runs the callback, or runs another task. */
  datatype Step =
    | Native(step: D.Step)
    | Take(code: C.UserCode)
    | Return(queued: bool)
    | Js(task: C.Step)

  /** What the callback makes of an event that travels on its own. */
  function KindOf(e: D.Event): C.NativeEvent {
    if e.id == 0 then C.Opened else if e.id == 1 then C.CloseEvent else C.Note
  }

  function Ids(batch: seq<D.Event>): (ids: seq<C.Message>)
    ensures |ids| == |batch|
  {
    seq(|batch|, i requires 0 <= i < |batch| => batch[i].id)
  }

  /** The messages of one channel. */
  ghost function Project(events: seq<D.Event>, k: nat): seq<C.Message> {
    if events == [] then []
    else
      var n := |events| - 1;
      Project(events[..n], k) + if events[n].channel == k then [events[n].id] else []
  }

  ghost function HandleOne(ch: C.State, e: D.Event, k: nat): C.State {
    if e.channel == k then C.HandleEvent(ch, C.Msg(e.id)) else ch
  }

  ghost function HandleEach(ch: C.State, batch: seq<D.Event>, k: nat): C.State {
    if batch == [] then ch
    else HandleOne(HandleEach(ch, batch[..|batch| - 1], k), batch[|batch| - 1], k)
  }

  ghost predicate OneChannel(batch: seq<D.Event>) {
    forall i :: 0 <= i < |batch| ==> batch[i].channel == batch[0].channel
  }

  /** A lone message is handed over by itself, more of them go through _handleNativeEventBatch. */
  ghost function Handle(ch: C.State, batch: seq<D.Event>, k: nat, code: C.UserCode): C.State {
    if batch == [] then ch
    else if |batch| > 1 && OneChannel(batch) then
      if batch[0].channel == k then C.HandleBatch(ch, Ids(batch), code) else ch
    else HandleEach(ch, batch, k)
  }

  ghost predicate OwnTask(task: C.Step) { !task.EventArrives? && !task.BatchArrives? }

  ghost predicate NativeStep(step: D.Step) { step.Emit? || step.Close? }

  ghost function Next(s: State, step: Step, k: nat): State {
    match step
    case Native(n) => if NativeStep(n) then s.(native := D.Next(s.native, n)) else s
    case Take(code) =>
      if s.native.draining.Some? || s.native.queue == [] then s
      else
        State(D.Next(s.native, D.TakeItem),
              match s.native.queue[0]
              case DrainRequest => Handle(s.channel, s.native.pendingEvents, k, code)
              case Direct(e) => if e.channel == k then C.HandleEvent(s.channel, KindOf(e)) else s.channel)
    case Return(queued) => s.(native := D.Next(s.native, D.CallbackReturns(queued)))
    case Js(task) =>
      if s.native.draining.Some? || !OwnTask(task) then s else s.(channel := C.Next(s.channel, task))
  }

  ghost function Run(s: State, steps: seq<Step>, k: nat): State {
    if steps == [] then s else Next(Run(s, steps[..|steps| - 1], k), steps[|steps| - 1], k)
  }

  ghost predicate Reliable(steps: seq<Step>) {
    forall i :: 0 <= i < |steps| ==>
      match steps[i]
      case Native(n) => D.Reliable(n)
      case Return(queued) => queued
      case _ => true
  }

  ghost predicate StaysUnclosed(s: State, steps: seq<Step>, k: nat) {
    forall n :: 0 <= n <= |steps| ==> Run(s, steps[..n], k).channel.c.readyState != C.Closed
  }

  ghost function Initial(createdLocally: bool): State { State(D.INITIAL, C.Initial(createdLocally)) }

  // ---- what the callback does to the channel --------------------------------

  ghost predicate Inv(s: State, k: nat) {
    && D.Protocol(s.native) && C.Inv(s.channel)
    && C.Messages(s.channel.b.log) == Project(s.native.delivered + D.Batch(s.native), k)
  }

  lemma {:induction false} ProjectAppend(a: seq<D.Event>, b: seq<D.Event>, k: nat)
    ensures Project(a + b, k) == Project(a, k) + Project(b, k)
    decreases |b|
  {
    if b == [] {
      assert a + b == a;
    } else {
      assert (a + b)[..|a + b| - 1] == a + b[..|b| - 1];
      ProjectAppend(a, b[..|b| - 1], k);
    }
  }

  lemma {:induction false} ProjectOneChannel(batch: seq<D.Event>, c: nat, k: nat)
    requires forall i :: 0 <= i < |batch| ==> batch[i].channel == c
    ensures Project(batch, k) == if c == k then Ids(batch) else []
  {
    if batch != [] {
      var n := |batch| - 1;
      ProjectOneChannel(batch[..n], c, k);
      IdsOfMore(batch[..n], batch[n]);
      assert batch[..n] + [batch[n]] == batch;
    }
  }

  lemma IdsOfMore(batch: seq<D.Event>, e: D.Event)
    ensures Ids(batch + [e]) == Ids(batch) + [e.id]
  {
  }

  /** What a step on behalf of arriving messages leaves as it is, unless it closes the channel. */
  ghost predicate StillReady(s: C.State, u: C.State) {
    u.c.readyState != C.Closed ==>
      && s.c.readyState != C.Closed
      && u.c.registered == s.c.registered
      && u.t.announcementPending == s.t.announcementPending
      && (u.t.announcementPending ==> u.c.dataChannelConsumer == s.c.dataChannelConsumer)
  }

  lemma MessageEvent(s: C.State, m: C.Message)
    requires C.Inv(s) && s.c.readyState != C.Closed
    ensures var u := C.HandleEvent(s, C.Msg(m));
            && C.Inv(u) && u.c.readyState != C.Closed && StillReady(s, u)
            && u.b.log == s.b.log + [C.Msg(m)]
  {
    C.HandleEventKeepsInv(s, C.Msg(m));
  }

  /** From ch to u the channel has taken in these messages, and nothing else has happened. */
  ghost predicate TookIn(ch: C.State, u: C.State, messages: seq<C.Message>) {
    && C.Inv(u) && u.c.readyState != C.Closed && StillReady(ch, u)
    && C.Messages(u.b.log) == C.Messages(ch.b.log) + messages
  }

  lemma {:induction false} HandleEachKeeps(ch: C.State, batch: seq<D.Event>, k: nat)
    requires C.Inv(ch) && ch.c.readyState != C.Closed
    ensures TookIn(ch, HandleEach(ch, batch, k), Project(batch, k))
  {
    if batch != [] {
      var n := |batch| - 1;
      HandleEachKeeps(ch, batch[..n], k);
      HandleOneMore(ch, HandleEach(ch, batch[..n], k), Project(batch[..n], k), batch[n], k);
    }
  }

  lemma HandleOneMore(ch: C.State, u: C.State, messages: seq<C.Message>, e: D.Event, k: nat)
    requires TookIn(ch, u, messages)
    ensures TookIn(ch, HandleOne(u, e, k), messages + if e.channel == k then [e.id] else [])
  {
    HandleOneKeeps(u, e, k);
  }

  lemma HandleOneKeeps(u: C.State, e: D.Event, k: nat)
    requires C.Inv(u) && u.c.readyState != C.Closed
    ensures TookIn(u, HandleOne(u, e, k), if e.channel == k then [e.id] else [])
  {
    if e.channel == k {
      MessageEvent(u, e.id);
      LogOne(u.b.log, e.id);
    }
  }

  lemma LogOne(log: seq<C.NativeEvent>, m: C.Message)
    ensures C.Messages(log + [C.Msg(m)]) == C.Messages(log) + [m]
  {
    assert (log + [C.Msg(m)])[..|log|] == log;
  }

  lemma {:induction false} DispatchBatchStillReady(s: C.State, messages: seq<C.Message>, h: Option<C.Handler>,
                                                   yieldToTask: bool, code: C.UserCode)
    requires !s.t.announcementPending
    ensures StillReady(s, C.DispatchBatch(s, messages, h, yieldToTask, code))
    decreases |messages|
  {
    if messages != [] {
      C.ActAllKeeps(s.c, code(|s.b.delivered|), s.t);
      DispatchBatchStillReady(C.DeliverDirectly(s, messages[0], code), messages[1..], h, yieldToTask, code);
    }
  }

  lemma HandleBatchKeeps(ch: C.State, messages: seq<C.Message>, code: C.UserCode)
    requires C.Inv(ch) && ch.c.readyState != C.Closed
    ensures var u := C.HandleBatch(ch, messages, code);
            && C.Inv(u) && StillReady(ch, u)
            && C.Messages(u.b.log) == C.Messages(ch.b.log) + messages
  {
    C.HandleBatchKeepsInv(ch, messages, code);
    BatchMessages(ch, messages, code);
    BatchStillReady(ch, messages, code);
  }

  lemma BatchMessages(ch: C.State, messages: seq<C.Message>, code: C.UserCode)
    ensures C.Messages(C.HandleBatch(ch, messages, code).b.log) == C.Messages(ch.b.log) + messages
  {
    O.BatchIsLogged(ch, messages, code);
    C.MessagesAppend(ch.b.log, C.Events(messages));
    C.MessagesOfEvents(messages);
  }

  lemma BatchStillReady(ch: C.State, messages: seq<C.Message>, code: C.UserCode)
    requires ch.c.readyState != C.Closed
    ensures StillReady(ch, C.HandleBatch(ch, messages, code))
  {
    var l := ch.b.(log := ch.b.log + C.Events(messages));
    var c := ch.c.(consumerGateActive := false);
    if !ch.t.announcementPending {
      DispatchBatchStillReady(C.State(l, c, ch.t), messages, c.onmessage, c.needsTaskYield, code);
    }
  }

  /** However a batch is cut up, channel k gets its messages in order. */
  lemma HandleKeeps(ch: C.State, batch: seq<D.Event>, k: nat, code: C.UserCode)
    requires C.Inv(ch) && ch.c.readyState != C.Closed
    ensures var u := Handle(ch, batch, k, code);
            && C.Inv(u) && StillReady(ch, u)
            && C.Messages(u.b.log) == C.Messages(ch.b.log) + Project(batch, k)
  {
    if batch == [] {
    } else if |batch| > 1 && OneChannel(batch) {
      ProjectOneChannel(batch, batch[0].channel, k);
      HandleBatchKeeps(ch, Ids(batch), code);
    } else {
      HandleEachKeeps(ch, batch, k);
    }
  }

  lemma EventLogsNoMessage(ch: C.State, e: C.NativeEvent)
    requires !e.Msg?
    ensures C.Messages(C.HandleEvent(ch, e).b.log) == C.Messages(ch.b.log)
  {
    var log := C.HandleEvent(ch, e).b.log;
    if log != ch.b.log {
      assert log == ch.b.log + [e];
      assert log[..|ch.b.log|] == ch.b.log;
    }
  }

  lemma ProcessKeepsReady(ch: C.State, e: C.NativeEvent)
    requires ch.c.readyState != C.Closed
    ensures var u := C.Process(ch, e); u.c.readyState != C.Closed && StillReady(ch, u)
  {
    C.ControlAfterKeeps(ch.c, e, ch.t.openEventPending);
    C.TasksAfterKeeps(ch.t, e);
    var c := C.ControlAfter(ch.c, e, ch.t.openEventPending);
    assert c.readyState == ch.c.readyState || c.readyState == C.Open;
  }

  lemma UnregisteredKeepsReady(ch: C.State, e: C.NativeEvent)
    requires ch.c.readyState != C.Closed && !ch.c.registered
    ensures var u := C.HandleEvent(ch, e); u.c == ch.c && u.t == ch.t
  {
  }

  lemma HeldKeepsReady(ch: C.State, e: C.NativeEvent)
    requires ch.c.readyState != C.Closed && ch.c.registered && (ch.t.announcementPending || ch.t.drainActive)
    ensures var u := C.HandleEvent(ch, e);
            && u.c == ch.c.(readyState := u.c.readyState) && u.c.readyState in {ch.c.readyState, C.Open}
            && u.t == ch.t.(openEventPending := u.t.openEventPending)
  {
    if e == C.Opened {
      assert C.HandleEvent(ch, e).c == ch.c.(readyState := C.Open);
    } else {
      assert C.HandleEvent(ch, e).c == ch.c;
    }
  }

  lemma EventKeepsReady(ch: C.State, e: C.NativeEvent)
    requires ch.c.readyState != C.Closed
    ensures var u := C.HandleEvent(ch, e); u.c.readyState != C.Closed && StillReady(ch, u)
  {
    if !ch.c.registered {
      UnregisteredKeepsReady(ch, e);
    } else if ch.t.announcementPending || ch.t.drainActive {
      HeldKeepsReady(ch, e);
    } else {
      var l := ch.(b := ch.b.(log := ch.b.log + [e]));
      assert C.HandleEvent(ch, e) == C.Process(l, e);
      ProcessKeepsReady(l, e);
    }
  }

  lemma DirectEventKeeps(ch: C.State, e: D.Event)
    requires C.Inv(ch) && ch.c.readyState != C.Closed
    ensures var u := C.HandleEvent(ch, KindOf(e));
            && C.Inv(u) && u.c.readyState != C.Closed && StillReady(ch, u)
            && C.Messages(u.b.log) == C.Messages(ch.b.log)
  {
    C.HandleEventKeepsInv(ch, KindOf(e));
    EventKeepsReady(ch, KindOf(e));
    EventLogsNoMessage(ch, KindOf(e));
  }

  lemma TaskKeeps(ch: C.State, task: C.Step)
    requires C.Inv(ch) && ch.c.readyState != C.Closed && OwnTask(task)
    ensures var u := C.Next(ch, task); C.Inv(u) && u.b.log == ch.b.log
  {
    C.StepKeepsInv(ch, task);
    O.StepLogsArrivals(ch, task);
    assert C.ArrivedIn(task) == [];
  }

  lemma NativeStepKeeps(d: D.State, step: D.Step)
    requires D.Protocol(d) && D.Reliable(step) && NativeStep(step)
    ensures var e := D.Next(d, step);
            D.Protocol(e) && e.delivered == d.delivered && e.draining == d.draining
  {
    D.StepKeepsProtocol(d, step);
  }

  lemma DrainKeeps(s: State, code: C.UserCode, k: nat)
    requires Inv(s, k) && s.channel.c.readyState != C.Closed
    requires s.native.draining.None? && s.native.queue != [] && s.native.queue[0].DrainRequest?
    ensures var u := Next(s, Take(code), k); Inv(u, k) && StillReady(s.channel, u.channel)
  {
    D.StepKeepsProtocol(s.native, D.TakeItem);
    var d := D.Next(s.native, D.TakeItem);
    HandleKeeps(s.channel, s.native.pendingEvents, k, code);
    ProjectAppend(s.native.delivered, s.native.pendingEvents, k);
    assert s.native.delivered + D.Batch(s.native) == s.native.delivered;
    assert d.delivered + D.Batch(d) == s.native.delivered + s.native.pendingEvents;
  }

  lemma DirectKeeps(s: State, code: C.UserCode, k: nat)
    requires Inv(s, k) && s.channel.c.readyState != C.Closed
    requires s.native.draining.None? && s.native.queue != [] && s.native.queue[0].Direct?
    ensures var u := Next(s, Take(code), k); Inv(u, k) && StillReady(s.channel, u.channel)
  {
    D.StepKeepsProtocol(s.native, D.TakeItem);
    var d, e := D.Next(s.native, D.TakeItem), s.native.queue[0].event;
    assert d.delivered == s.native.delivered && d.draining == s.native.draining;
    if e.channel == k {
      DirectEventKeeps(s.channel, e);
      assert Next(s, Take(code), k) == State(d, C.HandleEvent(s.channel, KindOf(e)));
    } else {
      assert Next(s, Take(code), k) == State(d, s.channel);
    }
  }

  /** The callback has run on what the item carries. */
  lemma TakeKeeps(s: State, code: C.UserCode, k: nat)
    requires Inv(s, k) && s.channel.c.readyState != C.Closed
    ensures var u := Next(s, Take(code), k); Inv(u, k) && StillReady(s.channel, u.channel)
  {
    if s.native.draining.None? && s.native.queue != [] {
      if s.native.queue[0].DrainRequest? {
        DrainKeeps(s, code, k);
      } else {
        DirectKeeps(s, code, k);
      }
    }
  }

  lemma ReturnKeeps(s: State, k: nat)
    requires Inv(s, k)
    ensures Inv(Next(s, Return(true), k), k)
  {
    D.StepKeepsProtocol(s.native, D.CallbackReturns(true));
    var d := D.Next(s.native, D.CallbackReturns(true));
    assert d.delivered + D.Batch(d) == s.native.delivered + D.Batch(s.native);
  }

  lemma StepKeepsInv(s: State, step: Step, k: nat)
    requires Inv(s, k) && s.channel.c.readyState != C.Closed && Reliable([step])
    ensures Inv(Next(s, step, k), k)
  {
    assert [step][0] == step;
    match step
    case Native(n) => if NativeStep(n) { NativeStepKeeps(s.native, n); }
    case Take(code) => TakeKeeps(s, code, k);
    case Return(_) => ReturnKeeps(s, k);
    case Js(task) => if OwnTask(task) { TaskKeeps(s.channel, task); }
  }

  lemma {:induction false} RunKeepsInv(s: State, steps: seq<Step>, k: nat)
    requires Inv(s, k) && Reliable(steps) && StaysUnclosed(s, steps, k)
    ensures Inv(Run(s, steps, k), k)
  {
    if steps != [] {
      var n := |steps| - 1;
      var before := steps[..n];
      forall i | 0 <= i <= n ensures Run(s, before[..i], k).channel.c.readyState != C.Closed {
        assert before[..i] == steps[..i];
      }
      RunKeepsInv(s, before, k);
      assert before[..n] == before;
      StepKeepsInv(Run(s, before, k), steps[n], k);
    }
  }

  /**
    End to end, a channel is one FIFO: for every interleaving of emitting threads, drains and
    tasks, what the application got, what the JavaScript buffers hold and what still waits
    natively are together the messages accepted for this channel, in order. Once the
    dispatcher is closed they are a prefix of them.
   */
  lemma EndToEndFifo(createdLocally: bool, k: nat, steps: seq<Step>)
    requires Reliable(steps) && StaysUnclosed(Initial(createdLocally), steps, k)
    ensures var s := Run(Initial(createdLocally), steps, k);
            && s.channel.b.index <= |s.channel.b.queue|
            && var inJavaScript := s.channel.b.delivered + C.Undispatched(s.channel.b)
                                   + C.Messages(s.channel.b.queuedNative) + C.Messages(s.channel.b.pendingNative);
            && inJavaScript <= Project(s.native.emitted, k)
            && (s.native.active ==>
                  inJavaScript + Project(s.native.pendingEvents, k) == Project(s.native.emitted, k))
  {
    InitialInv(createdLocally, k);
    RunKeepsInv(Initial(createdLocally), steps, k);
    assert steps[..|steps|] == steps;
    FifoOfInv(Run(Initial(createdLocally), steps, k), k);
  }

  lemma InitialInv(createdLocally: bool, k: nat)
    ensures Inv(Initial(createdLocally), k)
  {
    O.InitialInv(createdLocally);
  }

  lemma FifoOfInv(s: State, k: nat)
    requires Inv(s, k) && s.channel.c.readyState != C.Closed
    ensures var inJavaScript := s.channel.b.delivered + C.Undispatched(s.channel.b)
                                + C.Messages(s.channel.b.queuedNative) + C.Messages(s.channel.b.pendingNative);
            && inJavaScript == C.Messages(s.channel.b.log) <= Project(s.native.emitted, k)
            && (s.native.active ==>
                  inJavaScript + Project(s.native.pendingEvents, k) == Project(s.native.emitted, k))
  {
    O.InOrderIsFifo(s.channel.b);
    var handled := s.native.delivered + D.Batch(s.native);
    var rest := s.native.emitted[|handled|..];
    assert s.native.emitted == handled + rest;
    ProjectAppend(handled, rest, k);
    if s.native.active {
      assert rest == s.native.pendingEvents;
    }
  }

  // ---- everything emitted is delivered --------------------------------------

  /** The dispatcher's own steps, with the callback run on every item. */
  ghost function Lift(steps: seq<D.Step>, code: C.UserCode): (r: seq<Step>)
    ensures |r| == |steps|
  {
    seq(|steps|, i requires 0 <= i < |steps| => if steps[i] == D.TakeItem then Take(code) else Return(true))
  }

  lemma {:induction false} LiftRuns(s: State, steps: seq<D.Step>, code: C.UserCode, k: nat)
    requires N.OnlyJsThread(steps)
    ensures Run(s, Lift(steps, code), k).native == D.Run(s.native, steps)
  {
    if steps != [] {
      var n := |steps| - 1;
      LiftRuns(s, steps[..n], code, k);
      assert Lift(steps, code)[..n] == Lift(steps[..n], code);
      LiftRunsOne(Run(s, Lift(steps[..n], code), k), steps[n], code, k);
    }
  }

  lemma LiftRunsOne(s: State, step: D.Step, code: C.UserCode, k: nat)
    requires step == D.TakeItem || step == D.CallbackReturns(true)
    ensures Next(s, if step == D.TakeItem then Take(code) else Return(true), k).native == D.Next(s.native, step)
  {
  }

  lemma {:induction false} LiftStillReady(s: State, steps: seq<Step>, k: nat)
    requires Inv(s, k) && StaysUnclosed(s, steps, k)
    requires JsThreadOnly(steps) && NoTasks(steps)
    ensures var u := Run(s, steps, k); Inv(u, k) && StillReady(s.channel, u.channel)
  {
    if steps != [] {
      var n := |steps| - 1;
      var before := steps[..n];
      forall i | 0 <= i <= n ensures Run(s, before[..i], k).channel.c.readyState != C.Closed {
        assert before[..i] == steps[..i];
      }
      LiftStillReady(s, before, k);
      assert before[..n] == before;
      var v := Run(s, before, k);
      if steps[n].Take? {
        TakeKeeps(v, steps[n].code, k);
      } else {
        ReturnKeeps(v, k);
      }
    }
  }

  ghost function OwnTasks(tasks: seq<C.Step>): (r: seq<Step>)
    ensures |r| == |tasks|
  {
    seq(|tasks|, i requires 0 <= i < |tasks| => Js(tasks[i]))
  }

  lemma {:induction false} OwnTasksRun(s: State, tasks: seq<C.Step>, k: nat)
    requires s.native.draining.None? && forall i :: 0 <= i < |tasks| ==> OwnTask(tasks[i])
    ensures Run(s, OwnTasks(tasks), k) == State(s.native, C.Run(s.channel, tasks))
  {
    if tasks != [] {
      var n := |tasks| - 1;
      OwnTasksRun(s, tasks[..n], k);
      assert OwnTasks(tasks)[..n] == OwnTasks(tasks[..n]);
    }
  }

  lemma {:induction false} RunAppend(s: State, a: seq<Step>, b: seq<Step>, k: nat)
    ensures Run(s, a + b, k) == Run(Run(s, a, k), b, k)
    decreases |b|
  {
    if b == [] {
      assert a + b == a;
    } else {
      assert (a + b)[..|a + b| - 1] == a + b[..|b| - 1];
      RunAppend(s, a, b[..|b| - 1], k);
    }
  }

  lemma {:induction false} JsThreadAcceptsNothing(d: D.State, steps: seq<D.Step>)
    requires N.OnlyJsThread(steps) && D.Protocol(d) && d.active
    ensures var e := D.Run(d, steps); e.emitted == d.emitted && e.active && D.Protocol(e)
  {
    if steps != [] {
      var n := |steps| - 1;
      JsThreadAcceptsNothing(d, steps[..n]);
      JsStepAcceptsNothing(D.Run(d, steps[..n]), steps[n]);
    }
  }

  lemma JsStepAcceptsNothing(d: D.State, step: D.Step)
    requires (step == D.TakeItem || step == D.CallbackReturns(true)) && D.Protocol(d) && d.active
    ensures var e := D.Next(d, step); e.emitted == d.emitted && e.active && D.Protocol(e)
  {
    D.StepKeepsProtocol(d, step);
  }

  /** Steps of the JavaScript thread, with a queue that takes items. */
  ghost predicate JsThreadOnly(steps: seq<Step>) {
    forall i :: 0 <= i < |steps| ==> steps[i].Take? || steps[i] == Return(true) || steps[i].Js?
  }

  ghost predicate NoTasks(steps: seq<Step>) {
    forall i :: 0 <= i < |steps| ==> !steps[i].Js?
  }

  /** The JavaScript thread takes in everything accepted so far and no callback is left running. */
  lemma TakeEverything(s: State, k: nat, code: C.UserCode) returns (steps: seq<Step>)
    requires Inv(s, k) && s.native.active
    ensures JsThreadOnly(steps) && NoTasks(steps)
    ensures var d := Run(s, steps, k).native;
            d.delivered == s.native.emitted == d.emitted && d.draining.None? && d.active
  {
    var native := N.JsThreadDeliversEverything(s.native);
    JsThreadAcceptsNothing(s.native, native);
    LiftRuns(s, native, code, k);
    var u := Run(s, Lift(native, code), k);
    NothingLeft(u.native.delivered, D.Batch(u.native), u.native.pendingEvents);
    LastReturn(u, k);
    var last := [Return(true)];
    RunAppend(s, Lift(native, code), last, k);
    steps := Lift(native, code) + last;
  }

  lemma NothingLeft(delivered: seq<D.Event>, batch: seq<D.Event>, pending: seq<D.Event>)
    requires delivered + batch + pending == delivered
    ensures batch == [] && pending == []
  {
    assert |delivered + batch + pending| == |delivered| + |batch| + |pending|;
  }

  lemma LastReturn(u: State, k: nat)
    requires D.Batch(u.native) == [] && u.native.pendingEvents == []
    ensures var d := Run(u, [Return(true)], k).native;
            && d.delivered == u.native.delivered && d.emitted == u.native.emitted
            && d.draining.None? && d.active == u.native.active
  {
    assert [Return(true)][..0] == [];
    assert Run(u, [Return(true)], k) == Next(u, Return(true), k);
    assert u.native.delivered + [] == u.native.delivered;
  }

  /**
    From any state in which the dispatcher is active and the channel registered, and announced
    or announceable: the JavaScript thread alone, with pending operations completing, hands the
    application every message the native side has accepted, whatever the handlers do short of
    closing the channel.
   */
  lemma EverythingEmittedIsDelivered(s: State, k: nat, announced: seq<C.UserAction>, code: C.UserCode)
    returns (steps: seq<Step>)
    requires Inv(s, k) && s.native.active && P.Ready(s.channel)
    ensures JsThreadOnly(steps)
    ensures !StaysUnclosed(s, steps, k) || Run(s, steps, k).channel.b.delivered == Project(s.native.emitted, k)
  {
    steps := TakeEverything(s, k, code);
    if StaysUnclosed(s, steps, k) {
      LiftStillReady(s, steps, k);
      AtTheEnd(s, steps, k);
      var u := Run(s, steps, k);
      TakenIn(u, k);
      var more := FinishInJavaScript(u, k, announced, code);
      RunAppend(s, steps, more, k);
      AtTheEnd(s, steps + more, k);
      steps := steps + more;
    }
  }

  lemma AtTheEnd(s: State, steps: seq<Step>, k: nat)
    ensures Run(s, steps, k).channel.c.readyState == C.Closed ==> !StaysUnclosed(s, steps, k)
  {
    assert steps[..|steps|] == steps;
  }

  lemma TakenIn(u: State, k: nat)
    requires Inv(u, k) && u.native.draining.None?
    ensures C.Messages(u.channel.b.log) == Project(u.native.delivered, k)
  {
    assert u.native.delivered + D.Batch(u.native) == u.native.delivered;
  }

  /** The channel's own tasks deliver what it has taken in. */
  lemma FinishInJavaScript(u: State, k: nat, announced: seq<C.UserAction>, code: C.UserCode)
    returns (steps: seq<Step>)
    requires u.native.draining.None? && P.Ready(u.channel)
    ensures JsThreadOnly(steps)
    ensures var v := Run(u, steps, k).channel;
            v.c.readyState == C.Closed || v.b.delivered == C.Messages(u.channel.b.log)
  {
    var tasks := P.EverythingIsDelivered(u.channel, announced, code);
    OwnTasksRun(u, tasks, k);
    steps := OwnTasks(tasks);
  }
}
