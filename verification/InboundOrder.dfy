/**
  What the invariant of the inbound path amounts to: one first-in first-out queue on every run,
  and closing after the data.
 */
module InboundOrder {
  import opened Wrappers
  import opened InboundChannel

  // ---- one FIFO -------------------------------------------------------------

  lemma {:induction false} RunKeepsInv(s: State, steps: seq<Step>)
    requires Inv(s) && StaysUnclosed(s, steps)
    ensures Inv(Run(s, steps))
  {
    if steps != [] {
      var before := steps[..|steps| - 1];
      forall n | 0 <= n <= |before| ensures Run(s, before[..n]).c.readyState != Closed {
        assert before[..n] == steps[..n];
      }
      RunKeepsInv(s, before);
      assert steps[..|before|] == before;
      StepKeepsInv(Run(s, before), steps[|steps| - 1]);
    }
  }

  lemma {:induction false} FlushKeepsLog(s: State, code: UserCode)
    ensures Flush(s, code).b.log == s.b.log
    decreases |s.b.queue| - s.b.index
  {
    if s.c.readyState != Closed && !Held(s) && s.b.index < |s.b.queue| {
      FlushKeepsLog(Dispatch(s, code), code);
    }
  }

  lemma {:induction false} DispatchBatchKeepsLog(s: State, messages: seq<Message>, h: Option<Handler>,
                                                 yieldToTask: bool, code: UserCode)
    ensures DispatchBatch(s, messages, h, yieldToTask, code).b.log == s.b.log
    decreases |messages|
  {
    if messages != [] {
      DispatchBatchKeepsLog(DeliverDirectly(s, messages[0], code), messages[1..], h, yieldToTask, code);
    }
  }

  lemma BatchIsLogged(s: State, messages: seq<Message>, code: UserCode)
    ensures HandleBatch(s, messages, code).b.log == s.b.log + Events(messages)
  {
    var l := s.b.(log := s.b.log + Events(messages));
    var c := s.c.(consumerGateActive := false);
    DispatchBatchKeepsLog(State(l, c, s.t), messages, c.onmessage, c.needsTaskYield, code);
  }

  lemma StepLogsArrivals(s: State, step: Step)
    ensures Logged(s.b.log, ArrivedIn(step), Next(s, step).b.log)
  {
    match step
    case BatchArrives(messages, code) => BatchIsLogged(s, messages, code);
    case FlushTask(code) => FlushKeepsLog(s.(c := s.c.(flushScheduled := false)), code);
    case EventArrives(e) =>
    case FinishOperation(_) =>
    case RegisterChannel(_) =>
    case DataChannelFlush(_, _) =>
    case DrainNext =>
    case ClosePoll(_, _) =>
    case _ =>
  }

  /** Only an open event that is applied at once is not recorded. */
  ghost predicate Logged(log: seq<NativeEvent>, e: seq<NativeEvent>, after: seq<NativeEvent>) {
    after == log + e || (after == log && (e == [] || e == [Opened]))
  }

  lemma NoMessages(events: seq<NativeEvent>)
    requires events == [] || events == [Opened]
    ensures Messages(events) == []
  {
    if events != [] {
      assert events[..0] == [];
    }
  }

  lemma LoggedMessages(base: seq<Message>, log: seq<NativeEvent>, arrived: seq<NativeEvent>,
                       e: seq<NativeEvent>, after: seq<NativeEvent>)
    requires Logged(log, e, after) && Messages(log) == base + Messages(arrived)
    ensures Messages(after) == base + Messages(arrived + e)
  {
    MessagesAppend(arrived, e);
    var m, n := Messages(arrived), Messages(e);
    assert (base + m) + n == base + (m + n);
    if after == log + e {
      MessagesAppend(log, e);
    } else {
      NoMessages(e);
      assert m + n == m;
    }
  }

  lemma {:induction false} RunLogsMessages(s: State, steps: seq<Step>)
    ensures Messages(Run(s, steps).b.log) == Messages(s.b.log) + Messages(Arrived(steps))
  {
    if steps != [] {
      var before, step := steps[..|steps| - 1], steps[|steps| - 1];
      var u := Run(s, before);
      RunLogsMessages(s, before);
      StepLogsArrivals(u, step);
      LoggedMessages(Messages(s.b.log), u.b.log, Arrived(before), ArrivedIn(step), Next(u, step).b.log);
    }
  }

  lemma InOrderIsFifo(b: Buffers)
    requires InOrder(b, [])
    ensures b.delivered + Undispatched(b) + Messages(b.queuedNative) + Messages(b.pendingNative) == Messages(b.log)
  {
    assert b.processed + Events([]) == b.processed;
    MessagesAppend(b.processed + b.queuedNative, b.pendingNative);
    MessagesAppend(b.processed, b.queuedNative);
  }

  lemma InitialInv(createdLocally: bool)
    ensures Inv(Initial(createdLocally))
  {
  }

  /**
    The whole path is one first-in first-out queue: as long as the channel is not closed,
    what the application got, what waits for it, and what waits on the native side are
    together the messages that arrived, each once and in order.
   */
  lemma ChannelIsOneFifo(createdLocally: bool, steps: seq<Step>)
    requires StaysUnclosed(Initial(createdLocally), steps)
    ensures var b := Run(Initial(createdLocally), steps).b;
            && b.index <= |b.queue|
            && b.delivered + b.queue[b.index..] + Messages(b.queuedNative) + Messages(b.pendingNative)
               == Messages(Arrived(steps))
  {
    var s := Initial(createdLocally);
    InitialInv(createdLocally);
    RunKeepsInv(s, steps);
    RunLogsMessages(s, steps);
    assert steps[..|steps|] == steps;
    InOrderIsFifo(Run(s, steps).b);
  }

  // ---- close after data -----------------------------------------------------

  lemma {:induction false} MessagesPrefix(events: seq<NativeEvent>, k: nat)
    requires k <= |events|
    ensures Messages(events[..k]) <= Messages(events)
  {
    MessagesAppend(events[..k], events[k..]);
    assert events[..k] + events[k..] == events;
  }

  /**
    A close poll that changes the channel acts on a close event whose preceding messages
    have all been dispatched.
   */
  lemma CloseWaitsForItsMessages(s: State, graceOver: bool, suppressed: bool)
    returns (k: nat)
    requires Inv(s) && s.c.readyState != Closed
    requires Next(s, ClosePoll(graceOver, suppressed)).c != s.c
    ensures k < |s.b.log| && s.b.log[k] == CloseEvent && Messages(s.b.log[..k]) <= s.b.delivered
  {
    assert CloseActs(s, graceOver);
    assert CloseEvent in s.b.processed;
    k :| 0 <= k < |s.b.processed| && s.b.processed[k] == CloseEvent;
    MessagesPrefix(s.b.processed, k);
    assert s.b.processed + Events([]) == s.b.processed;
    assert s.b.log[..k] == s.b.processed[..k];
  }
}
