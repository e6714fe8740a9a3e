/**
  The native sender thread: any thread enqueues a payload, one worker swaps the queue out
  and sends item by item. Each step is one critical section or one send of the worker.
 */
module AsyncSender {
  import opened Subsequences

  datatype Payload = Payload(channel: nat, id: nat)

  /** A payload the worker is done with; sent is false when it was dropped. */
  datatype Attempt = Attempt(payload: Payload, sent: bool)

  const MAX_QUEUE := 8192

  datatype State = State(
    queue: seq<Payload>,
    batch: seq<Payload>,           // what the worker has swapped out and not yet processed
    offered: seq<Payload>,         // history: every payload enqueued
    accepted: seq<Payload>,        // history: those that got into the queue
    processed: seq<Attempt>)       // history: in the order in which the worker took them

  /** Process carries whether the channel was open and the send did not throw. */
  datatype Step = Enqueue(payload: Payload) | Swap | Process(sent: bool)

  const INITIAL := State([], [], [], [], [])

  ghost function Next(s: State, step: Step): State {
    match step
    case Enqueue(p) =>
      var t := s.(offered := s.offered + [p]);
      if |s.queue| >= MAX_QUEUE then t else t.(queue := s.queue + [p], accepted := s.accepted + [p])
    case Swap => if s.batch != [] || s.queue == [] then s else s.(batch := s.queue, queue := [])
    case Process(sent) =>
      if s.batch == [] then s
      else s.(batch := s.batch[1..], processed := s.processed + [Attempt(s.batch[0], sent)])
  }

  ghost function Run(s: State, steps: seq<Step>): State {
    if steps == [] then s else Next(Run(s, steps[..|steps| - 1]), steps[|steps| - 1])
  }

  ghost function Payloads(processed: seq<Attempt>): (r: seq<Payload>)
    ensures |r| == |processed|
  {
    seq(|processed|, i requires 0 <= i < |processed| => processed[i].payload)
  }

  /** What went out, in order. */
  ghost function Transmitted(processed: seq<Attempt>): seq<Payload> {
    if processed == [] then []
    else
      var n := |processed| - 1;
      Transmitted(processed[..n]) + if processed[n].sent then [processed[n].payload] else []
  }

  ghost function OnChannel(payloads: seq<Payload>, c: nat): seq<Payload> {
    if payloads == [] then []
    else
      var n := |payloads| - 1;
      OnChannel(payloads[..n], c) + if payloads[n].channel == c then [payloads[n]] else []
  }

  ghost predicate Inv(s: State) {
    && s.accepted == Payloads(s.processed) + s.batch + s.queue
    && |s.queue| <= MAX_QUEUE && |s.batch| <= MAX_QUEUE
    && Subsequence(s.accepted, s.offered)
  }

  lemma StepKeepsInv(s: State, step: Step)
    requires Inv(s)
    ensures Inv(Next(s, step))
  {
    match step
    case Enqueue(p) =>
      SubsequenceAppend(s.accepted, s.offered, p);
      assert Payloads(s.processed) + s.batch + (s.queue + [p]) == s.accepted + [p];
    case Swap =>
      if s.batch == [] {
        assert Payloads(s.processed) + s.batch == Payloads(s.processed);
        assert Payloads(s.processed) + s.queue + [] == Payloads(s.processed) + s.queue;
      }
    case Process(sent) =>
      if s.batch != [] {
        var t := Next(s, step);
        assert Payloads(t.processed) == Payloads(s.processed) + [s.batch[0]];
        assert Payloads(t.processed) + t.batch == Payloads(s.processed) + s.batch;
      }
  }

  /**
    For every interleaving of enqueuing threads and the worker: the accepted payloads are
    exactly the processed ones, the rest of the batch and the queue, in order; the queue
    stays within its cap, and what is in flight within twice the cap.
   */
  lemma {:induction false} AcceptedIsAccountedFor(steps: seq<Step>)
    ensures var s := Run(INITIAL, steps);
            && s.accepted == Payloads(s.processed) + s.batch + s.queue
            && |s.queue| <= 8192 && |s.batch| + |s.queue| <= 2 * 8192
            && Inv(s)
  {
    if steps != [] {
      AcceptedIsAccountedFor(steps[..|steps| - 1]);
      StepKeepsInv(Run(INITIAL, steps[..|steps| - 1]), steps[|steps| - 1]);
    } else {
      assert Payloads([]) + [] + [] == [];
    }
  }

  // ---- order of transmission ------------------------------------------------

  lemma {:induction false} TransmittedSubsequence(processed: seq<Attempt>)
    ensures Subsequence(Transmitted(processed), Payloads(processed))
  {
    if processed != [] {
      var n := |processed| - 1;
      TransmittedSubsequence(processed[..n]);
      assert Payloads(processed) == Payloads(processed[..n]) + [processed[n].payload];
      SubsequenceAppend(Transmitted(processed[..n]), Payloads(processed[..n]), processed[n].payload);
      assert Transmitted(processed[..n]) + [] == Transmitted(processed[..n]);
    }
  }

  lemma {:induction false} SubsequenceOnChannel(a: seq<Payload>, b: seq<Payload>, c: nat)
    requires Subsequence(a, b)
    ensures Subsequence(OnChannel(a, c), OnChannel(b, c))
    decreases |b|
  {
    if a != [] {
      var m, n := |a| - 1, |b| - 1;
      if Subsequence(a, b[..n]) {
        SubsequenceOnChannel(a, b[..n], c);
        SubsequenceExtends(OnChannel(a, c), OnChannel(b[..n], c), if b[n].channel == c then [b[n]] else []);
      } else {
        SubsequenceOnChannel(a[..m], b[..n], c);
        if b[n].channel == c {
          SubsequenceAppend(OnChannel(a[..m], c), OnChannel(b[..n], c), b[n]);
        } else {
          assert OnChannel(a, c) == OnChannel(a[..m], c) && OnChannel(b, c) == OnChannel(b[..n], c);
        }
      }
    }
  }

  lemma TransmittedInOrder(s: State, c: nat)
    requires Inv(s)
    ensures Subsequence(Transmitted(s.processed), s.accepted)
    ensures Subsequence(OnChannel(Transmitted(s.processed), c), OnChannel(s.accepted, c))
    ensures Subsequence(OnChannel(s.accepted, c), OnChannel(s.offered, c))
  {
    TransmittedSubsequence(s.processed);
    SubsequenceExtends(Transmitted(s.processed), Payloads(s.processed), s.batch + s.queue);
    assert Payloads(s.processed) + (s.batch + s.queue) == s.accepted;
    SubsequenceOnChannel(Transmitted(s.processed), s.accepted, c);
    SubsequenceOnChannel(s.accepted, s.offered, c);
  }

  /** The wire sees the accepted payloads in order, some left out, overall and on each channel. */
  lemma TransmissionKeepsOrder(steps: seq<Step>, c: nat)
    ensures var s := Run(INITIAL, steps);
            && Subsequence(Transmitted(s.processed), s.accepted)
            && Subsequence(OnChannel(Transmitted(s.processed), c), OnChannel(s.accepted, c))
            && Subsequence(OnChannel(s.accepted, c), OnChannel(s.offered, c))
  {
    AcceptedIsAccountedFor(steps);
    TransmittedInOrder(Run(INITIAL, steps), c);
  }

  /** No payload of channel c was dropped by the worker. */
  ghost predicate AllSent(processed: seq<Attempt>, c: nat) {
    forall i :: 0 <= i < |processed| ==> processed[i].payload.channel == c ==> processed[i].sent
  }

  /** A channel whose sends never fail transmits exactly what was accepted for it, once it is idle. */
  lemma {:induction false} OpenChannelLosesNothing(processed: seq<Attempt>, c: nat)
    requires AllSent(processed, c)
    ensures OnChannel(Transmitted(processed), c) == OnChannel(Payloads(processed), c)
  {
    if processed != [] {
      var n := |processed| - 1;
      var before, last := processed[..n], processed[n];
      OpenChannelLosesNothing(before, c);
      assert Payloads(processed) == Payloads(before) + [last.payload];
      OnChannelAppend(Payloads(before), last.payload, c);
      OnChannelAppend(Transmitted(before), last.payload, c);
      assert Transmitted(processed) == if last.sent then Transmitted(before) + [last.payload] else Transmitted(before);
    }
  }

  lemma OnChannelAppend(payloads: seq<Payload>, p: Payload, c: nat)
    ensures OnChannel(payloads + [p], c) == OnChannel(payloads, c) + if p.channel == c then [p] else []
  {
    assert (payloads + [p])[..|payloads|] == payloads;
  }

  // ---- the worker catches up ------------------------------------------------

  ghost predicate WorkerStep(step: Step) { step == Swap || step == Process(true) }

  lemma {:induction false} RunAppend(s: State, a: seq<Step>, b: seq<Step>)
    ensures Run(s, a + b) == Run(Run(s, a), b)
    decreases |b|
  {
    if b == [] {
      assert a + b == a;
    } else {
      assert (a + b)[..|a + b| - 1] == a + b[..|b| - 1];
      RunAppend(s, a, b[..|b| - 1]);
    }
  }

  /** The worker alone processes everything accepted so far, in at most one swap more. */
  lemma {:induction false} WorkerCatchesUp(s: State) returns (steps: seq<Step>)
    requires Inv(s)
    ensures forall i :: 0 <= i < |steps| ==> WorkerStep(steps[i])
    ensures Payloads(Run(s, steps).processed) == s.accepted
    decreases |s.queue|, |s.batch|
  {
    if s.batch == [] && s.queue == [] {
      steps := [];
      assert Payloads(s.processed) + [] + [] == Payloads(s.processed);
      return;
    }
    var step := if s.batch == [] then Swap else Process(true);
    StepKeepsInv(s, step);
    steps := WorkerCatchesUp(Next(s, step));
    RunAppend(s, [step], steps);
    assert [step][..0] == [];
    steps := [step] + steps;
  }

  // ---- the cap --------------------------------------------------------------

  lemma {:induction false} Fill(s: State, n: nat) returns (steps: seq<Step>)
    requires s.queue == [] && n <= MAX_QUEUE
    ensures |Run(s, steps).queue| == n && Run(s, steps).batch == s.batch
  {
    if n == 0 {
      steps := [];
    } else {
      steps := Fill(s, n - 1);
      var t := Run(s, steps);
      assert (steps + [Enqueue(Payload(0, n))])[..|steps|] == steps;
      steps := steps + [Enqueue(Payload(0, n))];
    }
  }

  /** The cap counts the queue only: twice as many payloads can be in flight. */
  lemma InFlightBoundIsReached() returns (steps: seq<Step>)
    ensures var s := Run(INITIAL, steps); |s.batch| + |s.queue| == 2 * 8192
  {
    steps := Fill(INITIAL, MAX_QUEUE);
    var s := Run(INITIAL, steps);
    assert (steps + [Swap])[..|steps|] == steps;
    var more := Fill(Next(s, Swap), MAX_QUEUE);
    RunAppend(INITIAL, steps + [Swap], more);
    steps := steps + [Swap] + more;
  }

  // ---- the class ------------------------------------------------------------

  class Sender {
    var queue: seq<Payload>
    var batch: seq<Payload>
    ghost var offered: seq<Payload>
    ghost var accepted: seq<Payload>
    var processed: seq<Attempt>

    ghost function Abs(): State
      reads this
    {
      State(queue, batch, offered, accepted, processed)
    }

    constructor ()
      ensures Abs() == INITIAL
    {
      queue, batch, offered, accepted, processed := [], [], [], [], [];
    }

    method EnqueuePayload(p: Payload)
      modifies this`queue, this`offered, this`accepted
      ensures Abs() == Next(old(Abs()), Enqueue(p))
    {
      offered := offered + [p];
      if |queue| >= MAX_QUEUE {
        return;
      }
      queue := queue + [p];
      accepted := accepted + [p];
    }

    /** The worker's critical section, once the queue is not empty. */
    method SwapBatch()
      requires batch == [] && queue != []
      modifies this`queue, this`batch
      ensures Abs() == Next(old(Abs()), Swap)
    {
      batch, queue := queue, batch;
    }

    /** The worker's loop over a batch; sent says for each item whether its send went through. */
    method ProcessBatch(sent: seq<bool>)
      requires |sent| == |batch|
      modifies this`batch, this`processed
      ensures batch == [] && Payloads(processed) == Payloads(old(processed)) + old(batch)
      ensures Abs() == Run(old(Abs()), seq(|sent|, i requires 0 <= i < |sent| => Process(sent[i])))
    {
      ghost var steps := seq(|sent|, i requires 0 <= i < |sent| => Process(sent[i]));
      ghost var items := batch;
      var i := 0;
      while i < |sent|
        invariant i <= |sent| && batch == items[i..]
        invariant Payloads(processed) == Payloads(old(processed)) + items[..i]
        invariant Abs() == Run(old(Abs()), steps[..i])
      {
        assert steps[..i + 1][..i] == steps[..i];
        assert Payloads(processed + [Attempt(batch[0], sent[i])]) == Payloads(processed) + [items[i]];
        processed := processed + [Attempt(batch[0], sent[i])];
        batch := batch[1..];
        assert items[..i + 1] == items[..i] + [items[i]];
        i := i + 1;
      }
      assert steps[..i] == steps && items[..i] == items;
    }
  }
}
