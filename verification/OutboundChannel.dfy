/**
  The outbound path of one data channel: send, the promise chain of sends that could not go
  out at once, close, and the byte counters behind bufferedAmount. Steps are the calls and
  the tasks; what the native channel answers is part of the step.
 */
module OutboundChannel {
  datatype ReadyState = Connecting | Open | Closing | Closed

  datatype Kind = Text | Binary | Blob

  /** A link of the promise chain; the head is the one that runs. */
  datatype Job = Send(id: nat, kind: Kind, size: nat) | CloseNative

  /** A send is taken by the native channel, delivered to the pair, or reported by an error event. */
  datatype Fate = ToNative | ToPair | Reported

  datatype Resolution = Resolution(id: nat, kind: Kind, fate: Fate)

  datatype Chain = Chain(
    jobs: seq<Job>,
    settling: bool,                // the head has its outcome; its finally block is next
    pendingSends: nat,
    calls: nat,                    // history: sends that returned, numbered in call order
    resolved: seq<Resolution>)     // history: in the order of the outcomes

  datatype Counters = Counters(
    bufferedAmount: nat,
    pendingDecrease: nat,
    decreaseScheduled: bool,
    synthetic: seq<nat>,           // decreases already posted for synthetic delivery
    pairedBytes: nat,              // _pendingPairedDeliveryBytes
    threshold: nat,
    lows: nat,                     // bufferedamountlow events
    received: bool)                // history: a paired receipt has been counted

  datatype Phase = NotClosing | Chained | Polling | Scheduled | NativeClosed

  datatype State = State(
    readyState: ReadyState,
    phase: Phase,
    drainFirst: bool,
    returned: nat,                 // history: sends that had returned when the native close was arranged
    chain: Chain,
    n: Counters)

  datatype Outcome = Accepted | Refused | Throws

  /** The native side as a step finds it; synthetic delivery always accepts. */
  datatype Native = Native(isOpen: bool, outcome: Outcome, synthetic: bool, paired: bool)

  datatype SendResult = Returned | InvalidState | TooLong | NativeError

  /** A late open event is one that was held back; it opens whatever state it finds. */
  datatype Step =
    | SendCall(kind: Kind, size: nat, tooLong: bool, native: Native)
    | Attempt(native: Native)
    | Settle(synthetic: bool)
    | CloseCall
    | RunCloseJob
    | PollDrain(nativeBuffered: nat, deadline: bool, paired: bool)
    | CloseTask
    | FlushDecrease(nativeBuffered: nat)
    | SyntheticFires
    | PairedReceived(size: nat)
    | SetThreshold(threshold: nat)
    | Opens(late: bool)
    | RemoteCloses
    | Closes

  function Ready(v: Native): bool { v.synthetic || v.isOpen }

  function OutcomeOf(v: Native): Outcome { if v.synthetic then Accepted else v.outcome }

  // ---- the counters ---------------------------------------------------------

  function Minus(a: nat, b: nat): nat { if a < b then 0 else a - b }

  function Decrease(n: Counters, size: nat): Counters {
    var rest := Minus(n.bufferedAmount, size);
    n.(bufferedAmount := rest,
       lows := n.lows + if n.bufferedAmount > n.threshold && rest <= n.threshold then 1 else 0)
  }

  function QueueDecrease(n: Counters, size: nat, synthetic: bool): Counters {
    if size == 0 then n
    else if synthetic then n.(synthetic := n.synthetic + [size])
    else n.(pendingDecrease := n.pendingDecrease + size, decreaseScheduled := true)
  }

  function Increase(n: Counters, size: nat, synthetic: bool): Counters {
    if size == 0 then n else QueueDecrease(n.(bufferedAmount := n.bufferedAmount + size), size, synthetic)
  }

  function Track(n: Counters, size: nat, paired: bool): Counters {
    if paired then n.(pairedBytes := n.pairedBytes + size) else n
  }

  function Flush(n: Counters, nativeBuffered: nat, closed: bool): Counters {
    if !n.decreaseScheduled then n
    else if n.pendingDecrease == 0 then n.(decreaseScheduled := false)
    else if nativeBuffered > 0 && !closed then n
    else Decrease(n.(decreaseScheduled := false, pendingDecrease := 0), n.pendingDecrease)
  }

  function Receive(n: Counters, size: nat): Counters {
    if size == 0 then n
    else
      Decrease(n.(pairedBytes := Minus(n.pairedBytes, size), pendingDecrease := Minus(n.pendingDecrease, size),
                  received := true), size)
  }

  // ---- the chain ------------------------------------------------------------

  /** Where a send goes that is accepted. */
  function FateOf(v: Native): Fate { if v.synthetic then ToPair else ToNative }

  function EnqueueSend(s: State, kind: Kind, size: nat): State {
    s.(chain := s.chain.(jobs := s.chain.jobs + [Send(s.chain.calls, kind, size)],
                         pendingSends := s.chain.pendingSends + 1, calls := s.chain.calls + 1),
       n := s.n.(bufferedAmount := s.n.bufferedAmount + size))
  }

  /** The native channel takes a send inside the call itself. */
  function SendNow(s: State, kind: Kind, size: nat, v: Native): State {
    s.(chain := s.chain.(calls := s.chain.calls + 1,
                         resolved := s.chain.resolved + [Resolution(s.chain.calls, kind, FateOf(v))]),
       n := Increase(Track(s.n, size, v.paired), size, v.synthetic))
  }

  function ResultOf(s: State, kind: Kind, tooLong: bool, v: Native): SendResult {
    if s.readyState != Open then InvalidState
    else if tooLong then TooLong
    else if kind != Blob && s.chain.pendingSends == 0 && Ready(v) && OutcomeOf(v) == Throws then NativeError
    else Returned
  }

  function AfterSend(s: State, kind: Kind, size: nat, tooLong: bool, v: Native): State {
    if ResultOf(s, kind, tooLong, v) != Returned then s
    else if kind == Blob || s.chain.pendingSends > 0 || !Ready(v) || OutcomeOf(v) == Refused
    then EnqueueSend(s, kind, size)
    else SendNow(s, kind, size, v)
  }

  /** The running send is offered to the native channel; a refused one is offered again later. */
  function AfterAttempt(s: State, v: Native): State {
    if s.chain.jobs == [] || !s.chain.jobs[0].Send? || s.chain.settling || OutcomeOf(v) == Refused then s
    else
      var job := s.chain.jobs[0];
      var accepted := OutcomeOf(v) == Accepted;
      var fate := if accepted then FateOf(v) else Reported;
      s.(chain := s.chain.(settling := true, resolved := s.chain.resolved + [Resolution(job.id, job.kind, fate)]),
         n := if accepted then Track(s.n, job.size, v.paired) else s.n)
  }

  function AfterSettle(s: State, synthetic: bool): State {
    if !s.chain.settling || s.chain.jobs == [] || !s.chain.jobs[0].Send? then s
    else
      s.(chain := s.chain.(jobs := s.chain.jobs[1..], settling := false, pendingSends := Minus(s.chain.pendingSends, 1)),
         n := QueueDecrease(s.n, s.chain.jobs[0].size, synthetic))
  }

  // ---- close ----------------------------------------------------------------

  function BeginNativeClose(s: State): State { s.(phase := if s.drainFirst then Polling else Scheduled) }

  function AfterClose(s: State): State {
    if s.readyState == Closing || s.readyState == Closed then s
    else if s.phase != NotClosing then s.(readyState := Closing)
    else
      var t := s.(readyState := Closing, returned := s.chain.calls,
                  drainFirst := s.n.bufferedAmount > 0 || s.chain.pendingSends > 0 || s.n.pairedBytes > 0);
      if t.chain.pendingSends > 0 then t.(phase := Chained, chain := t.chain.(jobs := t.chain.jobs + [CloseNative]))
      else BeginNativeClose(t)
  }

  function AfterPoll(s: State, nativeBuffered: nat, deadline: bool, paired: bool): State {
    if s.phase == Polling
       && (deadline || if paired then s.n.pairedBytes == 0 else s.n.bufferedAmount == 0 && nativeBuffered == 0)
    then s.(phase := Scheduled) else s
  }

  function Next(s: State, step: Step): State {
    match step
    case SendCall(kind, size, tooLong, v) => AfterSend(s, kind, size, tooLong, v)
    case Attempt(v) => AfterAttempt(s, v)
    case Settle(synthetic) => AfterSettle(s, synthetic)
    case CloseCall => AfterClose(s)
    case RunCloseJob =>
      if s.phase == Chained && s.chain.jobs != [] && s.chain.jobs[0] == CloseNative
      then BeginNativeClose(s.(chain := s.chain.(jobs := s.chain.jobs[1..]))) else s
    case PollDrain(nativeBuffered, deadline, paired) => AfterPoll(s, nativeBuffered, deadline, paired)
    case CloseTask => if s.phase == Scheduled then s.(phase := NativeClosed) else s
    case FlushDecrease(nativeBuffered) => s.(n := Flush(s.n, nativeBuffered, s.readyState == Closed))
    case SyntheticFires =>
      if s.n.synthetic == [] then s
      else s.(n := Decrease(s.n.(synthetic := s.n.synthetic[1..]), s.n.synthetic[0]))
    case PairedReceived(size) => if s.readyState == Closed then s else s.(n := Receive(s.n, size))
    case SetThreshold(t) => s.(n := s.n.(threshold := t))
    case Opens(late) => if late || s.readyState == Connecting then s.(readyState := Open) else s
    case RemoteCloses => if s.readyState == Closed then s else s.(readyState := Closing)
    case Closes => s.(readyState := Closed)
  }

  ghost function Run(s: State, steps: seq<Step>): State {
    if steps == [] then s else Next(Run(s, steps[..|steps| - 1]), steps[|steps| - 1])
  }

  const INITIAL := State(Connecting, NotClosing, false, 0, Chain([], false, 0, 0, []),
                         Counters(0, 0, false, [], 0, 0, 0, false))

  // ---- order of sends, and close after them ---------------------------------

  ghost function SendIds(jobs: seq<Job>): seq<nat> {
    if jobs == [] then []
    else
      var n := |jobs| - 1;
      SendIds(jobs[..n]) + if jobs[n].Send? then [jobs[n].id] else []
  }

  ghost function Ids(resolved: seq<Resolution>): (r: seq<nat>)
    ensures |r| == |resolved|
  {
    seq(|resolved|, i requires 0 <= i < |resolved| => resolved[i].id)
  }

  ghost function Upto(n: nat): (r: seq<nat>)
    ensures |r| == n
  {
    seq(n, i => i)
  }

  /** The jobs without an outcome. */
  ghost function Unsettled(c: Chain): seq<Job> {
    if c.settling && c.jobs != [] then c.jobs[1..] else c.jobs
  }

  ghost predicate ChainInv(c: Chain) {
    && Ids(c.resolved) + SendIds(Unsettled(c)) == Upto(c.calls)
    && c.pendingSends == |SendIds(c.jobs)|
    && (c.settling ==> c.jobs != [] && c.jobs[0].Send?)
  }

  ghost predicate AllSends(jobs: seq<Job>) {
    forall i :: 0 <= i < |jobs| ==> jobs[i].Send?
  }

  /** The native close is link number p, and what resolves before it makes up all that had returned. */
  ghost predicate ClosesAt(s: State, p: nat) {
    && p < |s.chain.jobs| && s.chain.jobs[p] == CloseNative
    && (forall i :: 0 <= i < |s.chain.jobs| && i != p ==> s.chain.jobs[i].Send?)
    && (s.chain.settling ==> p > 0)
    && |s.chain.resolved| + p - (if s.chain.settling then 1 else 0) >= s.returned
  }

  ghost predicate CloseInv(s: State) {
    match s.phase
    case NotClosing => AllSends(s.chain.jobs)
    case Chained => exists p: nat :: ClosesAt(s, p)
    case _ => AllSends(s.chain.jobs) && |s.chain.resolved| >= s.returned
  }

  lemma {:induction false} SendIdsAppend(a: seq<Job>, job: Job)
    ensures SendIds(a + [job]) == SendIds(a) + if job.Send? then [job.id] else []
  {
    assert (a + [job])[..|a|] == a;
  }

  lemma {:induction false} SendIdsTail(jobs: seq<Job>)
    requires jobs != []
    ensures SendIds(jobs) == (if jobs[0].Send? then [jobs[0].id] else []) + SendIds(jobs[1..])
  {
    var n := |jobs| - 1;
    if n == 0 {
      assert jobs[..0] == [] && jobs[1..] == [];
    } else {
      SendIdsTail(jobs[..n]);
      assert jobs[..n][1..] == jobs[1..][..n - 1];
    }
  }

  lemma EnqueueKeepsChain(s: State, kind: Kind, size: nat)
    requires ChainInv(s.chain)
    ensures ChainInv(EnqueueSend(s, kind, size).chain)
  {
    var c, d := s.chain, EnqueueSend(s, kind, size).chain;
    SendIdsAppend(c.jobs, Send(c.calls, kind, size));
    SendIdsAppend(Unsettled(c), Send(c.calls, kind, size));
    assert Unsettled(d) == Unsettled(c) + [Send(c.calls, kind, size)];
    assert Upto(d.calls) == Upto(c.calls) + [c.calls];
  }

  /** With no send pending, the call itself is the next in order. */
  lemma SendNowKeepsChain(s: State, kind: Kind, size: nat, v: Native)
    requires ChainInv(s.chain) && s.chain.pendingSends == 0
    ensures ChainInv(SendNow(s, kind, size, v).chain)
  {
    var c, d := s.chain, SendNow(s, kind, size, v).chain;
    if c.settling {
      SendIdsTail(c.jobs);
    }
    assert Ids(d.resolved) == Ids(c.resolved) + [c.calls];
    assert Upto(d.calls) == Upto(c.calls) + [c.calls];
  }

  lemma AttemptKeepsChain(s: State, v: Native)
    requires ChainInv(s.chain)
    ensures ChainInv(AfterAttempt(s, v).chain)
  {
    var c, d := s.chain, AfterAttempt(s, v).chain;
    if d != c {
      SendIdsTail(c.jobs);
      assert Ids(d.resolved) == Ids(c.resolved) + [c.jobs[0].id];
    }
  }

  lemma SettleKeepsChain(s: State, synthetic: bool)
    requires ChainInv(s.chain)
    ensures ChainInv(AfterSettle(s, synthetic).chain)
  {
    if s.chain.settling {
      SendIdsTail(s.chain.jobs);
    }
  }

  lemma CloseKeepsChain(s: State)
    requires ChainInv(s.chain)
    ensures ChainInv(AfterClose(s).chain)
  {
    var c, d := s.chain, AfterClose(s).chain;
    if d != c {
      SendIdsAppend(c.jobs, CloseNative);
      SendIdsAppend(Unsettled(c), CloseNative);
      assert Unsettled(d) == Unsettled(c) + [CloseNative];
    }
  }

  lemma StepKeepsChain(s: State, step: Step)
    requires ChainInv(s.chain)
    ensures ChainInv(Next(s, step).chain)
  {
    match step
    case SendCall(kind, size, tooLong, v) =>
      EnqueueKeepsChain(s, kind, size);
      if s.chain.pendingSends == 0 {
        SendNowKeepsChain(s, kind, size, v);
      }
    case Attempt(v) => AttemptKeepsChain(s, v);
    case Settle(synthetic) => SettleKeepsChain(s, synthetic);
    case CloseCall => CloseKeepsChain(s);
    case RunCloseJob => CloseJobKeepsChain(s);
    case _ => assert Next(s, step).chain == s.chain;
  }

  lemma CloseJobKeepsChain(s: State)
    requires ChainInv(s.chain)
    ensures ChainInv(Next(s, RunCloseJob).chain)
  {
    if s.chain.jobs != [] {
      SendIdsTail(s.chain.jobs);
    }
  }

  lemma {:induction false} SendsHaveIds(jobs: seq<Job>)
    requires AllSends(jobs)
    ensures |SendIds(jobs)| == |jobs|
  {
    if jobs != [] {
      SendsHaveIds(jobs[..|jobs| - 1]);
    }
  }

  /** Without a native close in the chain, every send has its outcome or its job. */
  lemma AllAccountedFor(c: Chain)
    requires ChainInv(c) && AllSends(c.jobs)
    ensures |c.resolved| + |c.jobs| - (if c.settling then 1 else 0) == c.calls
    ensures c.pendingSends == |c.jobs|
  {
    SendsHaveIds(c.jobs);
    SendsHaveIds(Unsettled(c));
    assert |Ids(c.resolved) + SendIds(Unsettled(c))| == c.calls;
  }

  lemma CloseCallKeepsClose(s: State)
    requires ChainInv(s.chain) && CloseInv(s)
    ensures CloseInv(AfterClose(s))
  {
    var t := AfterClose(s);
    if s.phase == NotClosing {
      AllAccountedFor(s.chain);
      if t.phase == Chained {
        assert ClosesAt(t, |s.chain.jobs|);
      }
    } else if s.phase == Chained && t != s {
      var p: nat :| ClosesAt(s, p);
      assert ClosesAt(t, p);
    }
  }

  lemma AttemptKeepsClose(s: State, v: Native)
    requires CloseInv(s)
    ensures CloseInv(AfterAttempt(s, v))
  {
    var t := AfterAttempt(s, v);
    if s.phase == Chained && t != s {
      var p: nat :| ClosesAt(s, p);
      assert ClosesAt(t, p);
    }
  }

  lemma SettleKeepsClose(s: State, synthetic: bool)
    requires CloseInv(s)
    ensures CloseInv(AfterSettle(s, synthetic))
  {
    var t := AfterSettle(s, synthetic);
    if s.phase == Chained && t != s {
      var p: nat :| ClosesAt(s, p);
      assert ClosesAt(t, p - 1);
    }
  }

  lemma SendKeepsClose(s: State, kind: Kind, size: nat, tooLong: bool, v: Native)
    requires CloseInv(s)
    ensures CloseInv(AfterSend(s, kind, size, tooLong, v))
  {
    var t := AfterSend(s, kind, size, tooLong, v);
    if s.phase == Chained && t != s {
      var p: nat :| ClosesAt(s, p);
      assert ClosesAt(t, p);
    }
  }

  lemma CloseJobKeepsClose(s: State)
    requires CloseInv(s)
    ensures CloseInv(Next(s, RunCloseJob))
  {
    if s.phase == Chained && s.chain.jobs != [] && s.chain.jobs[0] == CloseNative {
      var p: nat :| ClosesAt(s, p);
      assert p == 0;
    }
  }

  lemma OthersKeepClose(s: State, step: Step)
    requires CloseInv(s) && Next(s, step).chain == s.chain && Next(s, step).returned == s.returned
    requires Next(s, step).phase == s.phase || step.PollDrain? || step.CloseTask?
    ensures CloseInv(Next(s, step))
  {
    var t := Next(s, step);
    if s.phase == Chained {
      var p: nat :| ClosesAt(s, p);
      assert ClosesAt(t, p);
    }
  }

  lemma StepKeepsClose(s: State, step: Step)
    requires ChainInv(s.chain) && CloseInv(s)
    ensures CloseInv(Next(s, step))
  {
    match step
    case SendCall(kind, size, tooLong, v) => SendKeepsClose(s, kind, size, tooLong, v);
    case Attempt(v) => AttemptKeepsClose(s, v);
    case Settle(synthetic) => SettleKeepsClose(s, synthetic);
    case CloseCall => CloseCallKeepsClose(s);
    case RunCloseJob => CloseJobKeepsClose(s);
    case _ => OthersKeepClose(s, step);
  }

  lemma {:induction false} RunKeepsOrder(steps: seq<Step>)
    ensures ChainInv(Run(INITIAL, steps).chain) && CloseInv(Run(INITIAL, steps))
  {
    if steps == [] {
      assert Ids([]) + SendIds([]) == Upto(0);
    } else {
      var s := Run(INITIAL, steps[..|steps| - 1]);
      RunKeepsOrder(steps[..|steps| - 1]);
      StepKeepsChain(s, steps[|steps| - 1]);
      StepKeepsClose(s, steps[|steps| - 1]);
    }
  }

  /**
    Strings, buffers and blobs alike: outcomes come in call order, one for each send, and the
    sends without an outcome are exactly the later ones, queued in call order.
   */
  lemma SendsResolveInCallOrder(steps: seq<Step>)
    ensures var c := Run(INITIAL, steps).chain;
            && |c.resolved| <= c.calls
            && (forall i :: 0 <= i < |c.resolved| ==> c.resolved[i].id == i)
            && SendIds(Unsettled(c)) == Upto(c.calls)[|c.resolved|..]
  {
    RunKeepsOrder(steps);
    var c := Run(INITIAL, steps).chain;
    assert |Ids(c.resolved) + SendIds(Unsettled(c))| == c.calls;
    forall i | 0 <= i < |c.resolved| ensures c.resolved[i].id == i {
      assert (Ids(c.resolved) + SendIds(Unsettled(c)))[i] == Upto(c.calls)[i];
    }
  }

  /** What close() waits for is settled once: later calls and a late open event do not change it. */
  lemma {:induction false} ReturnedIsFixed(s: State, steps: seq<Step>)
    requires s.phase != NotClosing
    ensures Run(s, steps).phase != NotClosing && Run(s, steps).returned == s.returned
  {
    if steps != [] {
      ReturnedIsFixed(s, steps[..|steps| - 1]);
      StepKeepsReturned(Run(s, steps[..|steps| - 1]), steps[|steps| - 1]);
    }
  }

  lemma StepKeepsReturned(s: State, step: Step)
    requires s.phase != NotClosing
    ensures Next(s, step).phase != NotClosing && Next(s, step).returned == s.returned
  {
    match step
    case SendCall(_, _, _, _) =>
    case Attempt(_) =>
    case Settle(_) =>
    case CloseCall =>
    case RunCloseJob =>
    case _ =>
  }

  /**
    Whatever happens after the first close(), reopening by a late open event included: when the
    native close is due, every send that had returned before it has been taken or reported.
   */
  lemma NativeCloseAfterEverySend(before: seq<Step>, after: seq<Step>)
    requires var s := Run(INITIAL, before); s.phase == NotClosing && (s.readyState == Connecting || s.readyState == Open)
    ensures var t := Run(INITIAL, before + [CloseCall] + after);
            t.phase == Scheduled || t.phase == NativeClosed ==>
              |t.chain.resolved| >= Run(INITIAL, before).chain.calls
  {
    var s, t := Run(INITIAL, before), Run(INITIAL, before + [CloseCall] + after);
    RunAppend(INITIAL, before, [CloseCall]);
    RunAppend(INITIAL, before + [CloseCall], after);
    assert [CloseCall][..0] == [];
    assert Run(s, [CloseCall]) == AfterClose(s);
    ReturnedIsFixed(AfterClose(s), after);
    RunKeepsOrder(before + [CloseCall] + after);
  }

  /** Nothing has reopened the channel since close(), so nothing has joined the chain. */
  ghost predicate NotReopened(s: State) {
    && (s.phase != NotClosing ==> (s.readyState == Closing || s.readyState == Closed) && s.returned == s.chain.calls)
    && (s.phase == NotClosing || s.phase == Chained || s.chain.jobs == [])
  }

  lemma StepKeepsNotReopened(s: State, step: Step)
    requires ChainInv(s.chain) && CloseInv(s) && NotReopened(s) && step != Opens(true)
    ensures NotReopened(Next(s, step))
  {
    match step
    case CloseCall =>
      if s.phase == NotClosing {
        AllAccountedFor(s.chain);
      }
    case RunCloseJob =>
      if s.phase == Chained && s.chain.jobs != [] && s.chain.jobs[0] == CloseNative {
        CloseJobIsLast(s);
      }
    case _ =>
  }

  lemma CloseJobIsLast(s: State)
    requires ChainInv(s.chain) && CloseInv(s) && s.phase == Chained && s.returned == s.chain.calls
    requires s.chain.jobs != [] && s.chain.jobs[0] == CloseNative
    ensures s.chain.jobs[1..] == []
  {
    CloseJobKeepsClose(s);
    SendIdsTail(s.chain.jobs);
    SendsHaveIds(s.chain.jobs[1..]);
    assert |Ids(s.chain.resolved) + SendIds(Unsettled(s.chain))| == s.chain.calls;
  }

  ghost predicate NoLateOpen(steps: seq<Step>) {
    forall i :: 0 <= i < |steps| ==> steps[i] != Opens(true)
  }

  lemma {:induction false} WithoutLateOpen(steps: seq<Step>)
    requires NoLateOpen(steps)
    ensures NotReopened(Run(INITIAL, steps))
  {
    if steps != [] {
      var before, step := steps[..|steps| - 1], steps[|steps| - 1];
      assert step != Opens(true);
      WithoutLateOpen(before);
      RunKeepsOrder(before);
      StepKeepsNotReopened(Run(INITIAL, before), step);
    }
  }

  /** Without a late open event those are all sends there will ever be, and none is pending. */
  lemma NativeCloseIsLast(steps: seq<Step>)
    requires NoLateOpen(steps)
    ensures var s := Run(INITIAL, steps);
            s.phase == NativeClosed || s.phase == Scheduled ==>
              |s.chain.resolved| == s.chain.calls && s.chain.pendingSends == 0
  {
    RunKeepsOrder(steps);
    WithoutLateOpen(steps);
    var s := Run(INITIAL, steps);
    assert |Ids(s.chain.resolved) + SendIds(Unsettled(s.chain))| == s.chain.calls;
  }

  // ---- bytes ----------------------------------------------------------------

  ghost function JobBytes(jobs: seq<Job>): nat {
    if jobs == [] then 0
    else
      var n := |jobs| - 1;
      JobBytes(jobs[..n]) + if jobs[n].Send? then jobs[n].size else 0
  }

  ghost function Sum(sizes: seq<nat>): nat {
    if sizes == [] then 0 else Sum(sizes[..|sizes| - 1]) + sizes[|sizes| - 1]
  }

  /** Bytes that some pending task will still take off the amount. */
  ghost function Owed(s: State): nat { s.n.pendingDecrease + JobBytes(s.chain.jobs) + Sum(s.n.synthetic) }

  ghost predicate BytesInv(s: State) {
    && s.n.bufferedAmount <= Owed(s)
    && (!s.n.received ==> s.n.bufferedAmount == Owed(s))
    && (s.n.pendingDecrease > 0 ==> s.n.decreaseScheduled)
  }

  lemma {:induction false} JobBytesAppend(jobs: seq<Job>, job: Job)
    ensures JobBytes(jobs + [job]) == JobBytes(jobs) + if job.Send? then job.size else 0
  {
    assert (jobs + [job])[..|jobs|] == jobs;
  }

  lemma {:induction false} JobBytesTail(jobs: seq<Job>)
    requires jobs != []
    ensures JobBytes(jobs) == (if jobs[0].Send? then jobs[0].size else 0) + JobBytes(jobs[1..])
  {
    var n := |jobs| - 1;
    if n == 0 {
      assert jobs[..0] == [] && jobs[1..] == [];
    } else {
      JobBytesTail(jobs[..n]);
      assert jobs[..n][1..] == jobs[1..][..n - 1];
    }
  }

  lemma {:induction false} SumTail(sizes: seq<nat>)
    requires sizes != []
    ensures Sum(sizes) == sizes[0] + Sum(sizes[1..])
  {
    var n := |sizes| - 1;
    if n == 0 {
      assert sizes[..0] == [] && sizes[1..] == [];
    } else {
      SumTail(sizes[..n]);
      assert sizes[..n][1..] == sizes[1..][..n - 1];
    }
  }

  lemma SumAppend(sizes: seq<nat>, size: nat)
    ensures Sum(sizes + [size]) == Sum(sizes) + size
  {
    assert (sizes + [size])[..|sizes|] == sizes;
  }

  lemma EnqueueKeepsBytes(s: State, kind: Kind, size: nat)
    requires BytesInv(s)
    ensures BytesInv(EnqueueSend(s, kind, size))
  {
    JobBytesAppend(s.chain.jobs, Send(s.chain.calls, kind, size));
  }

  /** A send that goes out at once: its decrease is owed before the call returns. */
  lemma SendNowKeepsBytes(s: State, kind: Kind, size: nat, v: Native)
    requires BytesInv(s)
    ensures BytesInv(SendNow(s, kind, size, v))
  {
    var n := Increase(Track(s.n, size, v.paired), size, v.synthetic);
    if v.synthetic && size > 0 {
      SumAppend(s.n.synthetic, size);
      assert n.synthetic == s.n.synthetic + [size] && n.pendingDecrease == s.n.pendingDecrease;
    } else {
      assert n.synthetic == s.n.synthetic && n.pendingDecrease == s.n.pendingDecrease + size;
    }
    assert n.bufferedAmount == s.n.bufferedAmount + size && n.received == s.n.received;
  }

  lemma SendKeepsBytes(s: State, kind: Kind, size: nat, tooLong: bool, v: Native)
    requires BytesInv(s)
    ensures BytesInv(AfterSend(s, kind, size, tooLong, v))
  {
    EnqueueKeepsBytes(s, kind, size);
    SendNowKeepsBytes(s, kind, size, v);
  }

  lemma SettleKeepsBytes(s: State, synthetic: bool)
    requires BytesInv(s)
    ensures BytesInv(AfterSettle(s, synthetic))
  {
    if s.chain.jobs != [] {
      JobBytesTail(s.chain.jobs);
      if s.chain.jobs[0].Send? {
        SumAppend(s.n.synthetic, s.chain.jobs[0].size);
      }
    }
  }

  lemma CloseKeepsBytes(s: State)
    requires BytesInv(s)
    ensures BytesInv(AfterClose(s)) && BytesInv(Next(s, RunCloseJob))
  {
    JobBytesAppend(s.chain.jobs, CloseNative);
    if s.chain.jobs != [] {
      JobBytesTail(s.chain.jobs);
    }
    assert Owed(Next(s, RunCloseJob)) == Owed(s);
    assert Owed(AfterClose(s)) == Owed(s);
  }

  lemma OthersKeepBytes(s: State, step: Step)
    requires BytesInv(s)
    requires step.Attempt? || step.PollDrain? || step.CloseTask? || step.SetThreshold?
             || step.Opens? || step.RemoteCloses? || step.Closes?
    ensures BytesInv(Next(s, step))
  {
    assert Owed(Next(s, step)) == Owed(s);
  }

  lemma StepKeepsBytes(s: State, step: Step)
    requires BytesInv(s)
    ensures BytesInv(Next(s, step))
  {
    match step
    case SendCall(kind, size, tooLong, v) => SendKeepsBytes(s, kind, size, tooLong, v);
    case Settle(synthetic) => SettleKeepsBytes(s, synthetic);
    case CloseCall => CloseKeepsBytes(s);
    case RunCloseJob => CloseKeepsBytes(s);
    case SyntheticFires => CountersKeepBytes(s, step);
    case FlushDecrease(_) => CountersKeepBytes(s, step);
    case PairedReceived(_) => CountersKeepBytes(s, step);
    case _ => OthersKeepBytes(s, step);
  }

  /** The three ways in which the amount falls. */
  lemma CountersKeepBytes(s: State, step: Step)
    requires BytesInv(s)
    requires step.SyntheticFires? || step.FlushDecrease? || step.PairedReceived?
    ensures BytesInv(Next(s, step))
  {
    if s.n.synthetic != [] {
      SumTail(s.n.synthetic);
    }
  }

  /**
    bufferedAmount never exceeds the bytes still owed to it: the pending decrease, the sends
    in the chain and the posted synthetic decreases. Until a paired receipt is counted it is
    exactly that; once nothing is owed it is zero; and a pending decrease has its flush.
   */
  lemma {:induction false} BufferedAmountIsConserved(steps: seq<Step>)
    ensures BytesInv(Run(INITIAL, steps))
    ensures Owed(Run(INITIAL, steps)) == 0 ==> Run(INITIAL, steps).n.bufferedAmount == 0
  {
    if steps != [] {
      BufferedAmountIsConserved(steps[..|steps| - 1]);
      StepKeepsBytes(Run(INITIAL, steps[..|steps| - 1]), steps[|steps| - 1]);
    }
  }

  // ---- everything drains ----------------------------------------------------

  /** The chain goes on, with the native side accepting, and the posted tasks run. */
  ghost predicate Drains(step: Step) {
    || step == Attempt(Native(true, Accepted, false, false)) || step == Settle(false) || step == RunCloseJob
    || step == FlushDecrease(0) || step == SyntheticFires
  }

  lemma {:induction false} RunAppend(s: State, a: seq<Step>, b: seq<Step>)
    ensures Run(s, a + b) == Run(Run(s, a), b)
    decreases |b|
  {
    if b == [] {
      assert a + b == a;
    } else {
      assert (a + b)[..|a + b| - 1] == a + b[..|b| - 1];
      RunAppend(s, a, b[..|b| - 1]);
    }
  }

  /** The task that comes next, as long as bytes are owed. */
  ghost function NextTask(s: State): Step {
    if s.chain.jobs != [] then
      if s.chain.jobs[0] == CloseNative then RunCloseJob
      else if s.chain.settling then Settle(false)
      else Attempt(Native(true, Accepted, false, false))
    else if s.n.synthetic != [] then SyntheticFires
    else FlushDecrease(0)
  }

  ghost function Busy(s: State): nat {
    if s.chain.settling then 0 else 1
  }

  /** From any reachable state the pending tasks bring bufferedAmount down to zero. */
  lemma {:induction false} AmountDrains(s: State) returns (steps: seq<Step>)
    requires ChainInv(s.chain) && CloseInv(s) && BytesInv(s)
    ensures forall i :: 0 <= i < |steps| ==> Drains(steps[i])
    ensures Owed(Run(s, steps)) == 0 && Run(s, steps).n.bufferedAmount == 0 && Run(s, steps).chain.jobs == []
    decreases |s.chain.jobs|, Busy(s), |s.n.synthetic|, s.n.pendingDecrease
  {
    if Owed(s) == 0 && s.chain.jobs == [] {
      steps := [];
      return;
    }
    var step := NextTask(s);
    StepKeepsChain(s, step);
    StepKeepsClose(s, step);
    StepKeepsBytes(s, step);
    TaskMakesProgress(s);
    steps := AmountDrains(Next(s, step));
    RunAppend(s, [step], steps);
    assert [step][..0] == [];
    steps := [step] + steps;
  }

  lemma TaskMakesProgress(s: State)
    requires ChainInv(s.chain) && CloseInv(s) && (s.chain.jobs == [] ==> Owed(s) > 0 && BytesInv(s))
    ensures var u := Next(s, NextTask(s));
            || |u.chain.jobs| < |s.chain.jobs|
            || (|u.chain.jobs| == |s.chain.jobs|
                && (|| Busy(u) < Busy(s)
                    || (Busy(u) == Busy(s)
                        && (|| |u.n.synthetic| < |s.n.synthetic|
                            || (u.n.synthetic == s.n.synthetic && u.n.pendingDecrease < s.n.pendingDecrease)))))
  {
    if s.chain.jobs != [] && s.chain.jobs[0] == CloseNative {
      assert s.phase == Chained && !s.chain.settling;
    }
  }

  // ---- low-water events -----------------------------------------------------

  /** Over a run, how often the amount fell from above t to at or below it between two steps. */
  ghost function Falls(steps: seq<Step>, t: nat): nat {
    if steps == [] then 0
    else
      var n := |steps| - 1;
      Falls(steps[..n], t)
      + if Run(INITIAL, steps[..n]).n.bufferedAmount > t >= Run(INITIAL, steps).n.bufferedAmount then 1 else 0
  }

  ghost function Rises(steps: seq<Step>, t: nat): nat {
    if steps == [] then 0
    else
      var n := |steps| - 1;
      Rises(steps[..n], t)
      + if Run(INITIAL, steps[..n]).n.bufferedAmount <= t < Run(INITIAL, steps).n.bufferedAmount then 1 else 0
  }

  lemma StepCountsLows(s: State, step: Step)
    requires !step.SetThreshold?
    ensures var u := Next(s, step);
            && u.n.threshold == s.n.threshold
            && u.n.lows == s.n.lows + if s.n.bufferedAmount > s.n.threshold >= u.n.bufferedAmount then 1 else 0
  {
    match step
    case SendCall(_, _, _, _) =>
    case Attempt(_) =>
    case Settle(_) =>
    case FlushDecrease(_) =>
    case PairedReceived(_) =>
    case SyntheticFires =>
    case _ =>
  }

  ghost predicate FixedThreshold(steps: seq<Step>) {
    forall i :: 0 < i < |steps| ==> !steps[i].SetThreshold?
  }

  /**
    With the threshold set once at the start: one event for every fall to or below it, however
    the fall came about, and between two falls the amount has risen above it.
   */
  lemma {:induction false} LowEventsAreExact(t: nat, steps: seq<Step>)
    requires steps != [] && steps[0] == SetThreshold(t) && FixedThreshold(steps)
    ensures var s := Run(INITIAL, steps);
            && s.n.threshold == t
            && s.n.lows == Falls(steps, t)
            && Rises(steps, t) == s.n.lows + if s.n.bufferedAmount > t then 1 else 0
  {
    var n := |steps| - 1;
    if n == 0 {
      assert steps[..0] == [];
    } else {
      LowEventsAreExact(t, steps[..n]);
      StepCountsLows(Run(INITIAL, steps[..n]), steps[n]);
    }
  }

  // ---- the class ------------------------------------------------------------

  /** The sending side of a channel, changed in place by calls and tasks. */
  class Sender {
    var readyState: ReadyState
    var phase: Phase
    var drainFirst: bool
    ghost var returned: nat
    var jobs: seq<Job>
    var settling: bool
    var pendingSendCount: nat
    var calls: nat
    ghost var resolved: seq<Resolution>
    var bufferedAmount: nat
    var pendingDecrease: nat
    var decreaseScheduled: bool
    var syntheticDecreases: seq<nat>
    var pairedBytes: nat
    var threshold: nat
    var lows: nat
    ghost var received: bool

    ghost function TheChain(): Chain
      reads this`jobs, this`settling, this`pendingSendCount, this`calls, this`resolved
    {
      Chain(jobs, settling, pendingSendCount, calls, resolved)
    }

    ghost function TheCounters(): Counters
      reads this`bufferedAmount, this`pendingDecrease, this`decreaseScheduled, this`syntheticDecreases,
            this`pairedBytes, this`threshold, this`lows, this`received
    {
      Counters(bufferedAmount, pendingDecrease, decreaseScheduled, syntheticDecreases, pairedBytes, threshold, lows,
               received)
    }

    ghost function Abs(): State
      reads this
    {
      State(readyState, phase, drainFirst, returned, TheChain(), TheCounters())
    }

    constructor ()
      ensures Abs() == INITIAL
    {
      readyState, phase, drainFirst, returned := Connecting, NotClosing, false, 0;
      jobs, settling, pendingSendCount, calls, resolved := [], false, 0, 0, [];
      bufferedAmount, pendingDecrease, decreaseScheduled, syntheticDecreases := 0, 0, false, [];
      pairedBytes, threshold, lows, received := 0, 0, 0, false;
    }

    method DecreaseBufferedAmount(size: nat)
      modifies this`bufferedAmount, this`lows
      ensures TheCounters() == Decrease(old(TheCounters()), size)
    {
      var previous := bufferedAmount;
      bufferedAmount := if size > bufferedAmount then 0 else bufferedAmount - size;
      if previous > threshold && bufferedAmount <= threshold {
        lows := lows + 1;
      }
    }

    method QueueBufferedAmountDecrease(size: nat, synthetic: bool)
      modifies this`syntheticDecreases, this`pendingDecrease, this`decreaseScheduled
      ensures TheCounters() == QueueDecrease(old(TheCounters()), size, synthetic)
    {
      if size == 0 {
        return;
      }
      if synthetic {
        syntheticDecreases := syntheticDecreases + [size];
        return;
      }
      pendingDecrease := pendingDecrease + size;
      if !decreaseScheduled {
        decreaseScheduled := true;
      }
    }

    method IncreaseBufferedAmount(size: nat, synthetic: bool)
      modifies this`bufferedAmount, this`syntheticDecreases, this`pendingDecrease, this`decreaseScheduled
      ensures TheCounters() == Increase(old(TheCounters()), size, synthetic)
    {
      if size == 0 {
        return;
      }
      bufferedAmount := bufferedAmount + size;
      QueueBufferedAmountDecrease(size, synthetic);
    }

    method FlushBufferedAmountDecrease(nativeBuffered: nat)
      requires decreaseScheduled
      modifies this`bufferedAmount, this`pendingDecrease, this`decreaseScheduled, this`lows
      ensures Abs() == Next(old(Abs()), FlushDecrease(nativeBuffered))
      ensures nativeBuffered > 0 && readyState != Closed ==> bufferedAmount == old(bufferedAmount)
    {
      decreaseScheduled := false;
      if pendingDecrease == 0 {
        return;
      }
      if nativeBuffered > 0 && readyState != Closed {
        decreaseScheduled := true;
        return;
      }
      var amount := pendingDecrease;
      pendingDecrease := 0;
      DecreaseBufferedAmount(amount);
    }

    method RunSyntheticDecrease()
      requires syntheticDecreases != []
      modifies this`bufferedAmount, this`syntheticDecreases, this`lows
      ensures Abs() == Next(old(Abs()), SyntheticFires)
    {
      var size := syntheticDecreases[0];
      syntheticDecreases := syntheticDecreases[1..];
      DecreaseBufferedAmount(size);
    }

    /** The paired channel has dispatched a message of this size. */
    method MarkPairedDeliveryReceived(size: nat)
      modifies this`bufferedAmount, this`pendingDecrease, this`pairedBytes, this`lows, this`received
      ensures Abs() == Next(old(Abs()), PairedReceived(size))
    {
      if readyState == Closed || size == 0 {
        return;
      }
      received := true;
      pairedBytes := if size > pairedBytes then 0 else pairedBytes - size;
      DecreaseForPairedDelivery(size);
    }

    method DecreaseForPairedDelivery(size: nat)
      modifies this`bufferedAmount, this`pendingDecrease, this`lows
      ensures var n := old(TheCounters());
              TheCounters() == Decrease(n.(pendingDecrease := Minus(n.pendingDecrease, size)), size)
    {
      var pending := if size < pendingDecrease then size else pendingDecrease;
      if pending > 0 {
        pendingDecrease := pendingDecrease - pending;
      }
      DecreaseBufferedAmount(size);
    }

    method EnqueueJob(kind: Kind, size: nat)
      modifies this`jobs, this`pendingSendCount, this`calls, this`bufferedAmount
      ensures Abs() == EnqueueSend(old(Abs()), kind, size)
    {
      pendingSendCount := pendingSendCount + 1;
      bufferedAmount := bufferedAmount + size;
      jobs := jobs + [Send(calls, kind, size)];
      calls := calls + 1;
    }

    method SendDirectly(kind: Kind, size: nat, v: Native)
      modifies this`calls, this`resolved, this`bufferedAmount, this`syntheticDecreases, this`pendingDecrease,
               this`decreaseScheduled, this`pairedBytes
      ensures Abs() == SendNow(old(Abs()), kind, size, v)
    {
      if v.paired {
        pairedBytes := pairedBytes + size;
      }
      resolved := resolved + [Resolution(calls, kind, FateOf(v))];
      calls := calls + 1;
      IncreaseBufferedAmount(size, v.synthetic);
    }

    method SendMessage(kind: Kind, size: nat, tooLong: bool, v: Native) returns (result: SendResult)
      modifies this`jobs, this`pendingSendCount, this`calls, this`resolved, this`bufferedAmount,
               this`syntheticDecreases, this`pendingDecrease, this`decreaseScheduled, this`pairedBytes
      ensures result == ResultOf(old(Abs()), kind, tooLong, v)
      ensures Abs() == Next(old(Abs()), SendCall(kind, size, tooLong, v))
    {
      if readyState != Open {
        return InvalidState;
      }
      if tooLong {
        return TooLong;
      }
      if kind == Blob || pendingSendCount > 0 || !Ready(v) {
        EnqueueJob(kind, size);
        return Returned;
      }
      match OutcomeOf(v) {
        case Throws => return NativeError;
        case Refused => EnqueueJob(kind, size);
        case Accepted => SendDirectly(kind, size, v);
      }
      return Returned;
    }

    /** One attempt of the send at the head of the chain. */
    method AttemptSend(v: Native)
      requires jobs != [] && jobs[0].Send? && !settling
      modifies this`settling, this`resolved, this`pairedBytes
      ensures Abs() == Next(old(Abs()), Attempt(v))
    {
      match OutcomeOf(v) {
        case Refused => return;
        case Accepted =>
          if v.paired {
            pairedBytes := pairedBytes + jobs[0].size;
          }
          resolved := resolved + [Resolution(jobs[0].id, jobs[0].kind, FateOf(v))];
        case Throws =>
          resolved := resolved + [Resolution(jobs[0].id, jobs[0].kind, Reported)];
      }
      settling := true;
    }

    /** The finally block of the send at the head of the chain. */
    method SettleSend(synthetic: bool)
      requires settling && jobs != [] && jobs[0].Send?
      modifies this`jobs, this`settling, this`pendingSendCount,
               this`syntheticDecreases, this`pendingDecrease, this`decreaseScheduled
      ensures Abs() == Next(old(Abs()), Settle(synthetic))
    {
      var size := jobs[0].size;
      if pendingSendCount > 0 {
        pendingSendCount := pendingSendCount - 1;
      }
      QueueBufferedAmountDecrease(size, synthetic);
      jobs, settling := jobs[1..], false;
    }

    method CloseNativeNow()
      modifies this`phase
      ensures Abs() == BeginNativeClose(old(Abs()))
    {
      phase := if drainFirst then Polling else Scheduled;
    }

    method Close()
      modifies this`readyState, this`phase, this`drainFirst, this`returned, this`jobs
      ensures Abs() == Next(old(Abs()), CloseCall)
      ensures phase == Scheduled && old(phase) == NotClosing ==>
                bufferedAmount == 0 && pendingSendCount == 0 && pairedBytes == 0
    {
      if readyState == Closing || readyState == Closed {
        return;
      }
      readyState := Closing;
      var shouldDrain := bufferedAmount > 0 || pendingSendCount > 0 || pairedBytes > 0;
      if phase == NotClosing {
        drainFirst, returned := shouldDrain, calls;
        if pendingSendCount > 0 {
          phase := Chained;
          jobs := jobs + [CloseNative];
        } else {
          CloseNativeNow();
        }
      }
    }

    /** The close that waited behind the pending sends. */
    method RunChainedClose()
      requires phase == Chained && jobs != [] && jobs[0] == CloseNative
      modifies this`jobs, this`phase
      ensures Abs() == Next(old(Abs()), RunCloseJob)
    {
      jobs := jobs[1..];
      CloseNativeNow();
    }

    method PollBeforeClose(nativeBuffered: nat, deadline: bool, paired: bool)
      requires phase == Polling
      modifies this`phase
      ensures Abs() == Next(old(Abs()), PollDrain(nativeBuffered, deadline, paired))
    {
      var pairedDrained := pairedBytes == 0;
      var nativeDrained := bufferedAmount == 0 && nativeBuffered == 0;
      var drained := if paired then pairedDrained else nativeDrained;
      if drained || deadline {
        phase := Scheduled;
      }
    }
  }
}
