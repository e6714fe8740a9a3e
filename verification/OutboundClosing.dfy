/**
  close() against the data still on its way out: what the native close waits for, that it
  comes, and that nothing is sent after it.
 */
module OutboundClosing {
  import opened OutboundChannel

  // ---- what the native close waits for --------------------------------------

  ghost predicate CanClose(s: State) {
    s.phase == NotClosing && (s.readyState == Connecting || s.readyState == Open)
  }

  /** A close that waits behind pending sends also waits for their bytes. */
  lemma {:induction false} ChainedCloseDrains(steps: seq<Step>)
    ensures var s := Run(INITIAL, steps); s.phase == Chained ==> s.drainFirst
  {
    if steps != [] {
      var s, step := Run(INITIAL, steps[..|steps| - 1]), steps[|steps| - 1];
      ChainedCloseDrains(steps[..|steps| - 1]);
      StepKeepsDrain(s, step);
    }
  }

  lemma StepKeepsDrain(s: State, step: Step)
    requires s.phase == Chained ==> s.drainFirst
    ensures var u := Next(s, step); u.phase == Chained ==> u.drainFirst
  {
    match step
    case SendCall(_, _, _, _) =>
    case Attempt(_) =>
    case Settle(_) =>
    case CloseCall =>
    case RunCloseJob =>
    case PollDrain(_, _, _) =>
    case _ =>
  }

  /**
    On every run the native close is scheduled exactly when close() finds no byte buffered and
    no send pending, or when a later poll finds what is buffered gone, on the pair's side for
    paired channels and on both sides of the native channel otherwise, or its deadline passed.
   */
  lemma NativeCloseIsScheduledExactly(steps: seq<Step>, step: Step)
    requires Run(INITIAL, steps).phase != Scheduled
    ensures var s := Run(INITIAL, steps);
            Next(s, step).phase == Scheduled <==>
              || (step == CloseCall && CanClose(s)
                  && s.n.bufferedAmount == 0 && s.chain.pendingSends == 0 && s.n.pairedBytes == 0)
              || (step.PollDrain? && s.phase == Polling
                  && (step.deadline || if step.paired then s.n.pairedBytes == 0
                                       else s.n.bufferedAmount == 0 && step.nativeBuffered == 0))
  {
    var s := Run(INITIAL, steps);
    ChainedCloseDrains(steps);
    match step
    case SendCall(_, _, _, _) =>
    case Attempt(_) =>
    case Settle(_) =>
    case CloseCall =>
    case RunCloseJob =>
    case PollDrain(_, _, _) =>
    case _ =>
  }

  lemma OnlyTheTaskCloses(s: State, step: Step)
    ensures Next(s, step).phase == NativeClosed <==>
              s.phase == NativeClosed || (step == CloseTask && s.phase == Scheduled)
  {
    match step
    case SendCall(_, _, _, _) =>
    case Attempt(_) =>
    case Settle(_) =>
    case CloseCall =>
    case RunCloseJob =>
    case PollDrain(_, _, _) =>
    case _ =>
  }

  /** The first close() always starts closing, and takes no byte off the account. */
  lemma CloseStarts(s: State)
    requires CanClose(s)
    ensures var u := Next(s, CloseCall);
            u.phase != NotClosing && u.readyState == Closing && u.n == s.n && u.returned == s.chain.calls
  {
  }

  // ---- it comes -------------------------------------------------------------

  /** What the tasks that drain the channel leave as it is. */
  lemma {:induction false} DrainingKeeps(s: State, steps: seq<Step>)
    requires forall i :: 0 <= i < |steps| ==> Drains(steps[i])
    ensures var u := Run(s, steps); u.readyState == s.readyState && u.n.pairedBytes == s.n.pairedBytes
  {
    if steps != [] {
      var before, step := steps[..|steps| - 1], steps[|steps| - 1];
      DrainingKeeps(s, before);
      assert Drains(step);
      DrainingStepKeeps(Run(s, before), step);
    }
  }

  lemma DrainingStepKeeps(s: State, step: Step)
    requires Drains(step)
    ensures var u := Next(s, step); u.readyState == s.readyState && u.n.pairedBytes == s.n.pairedBytes
  {
    match step
    case Attempt(_) =>
    case Settle(_) =>
    case RunCloseJob =>
    case FlushDecrease(_) =>
    case SyntheticFires =>
  }

  ghost predicate Kept(s: State) { ChainInv(s.chain) && CloseInv(s) && BytesInv(s) }

  /** The receipt of everything the pair is owed, which a closed channel no longer hears. */
  lemma Acknowledge(s: State) returns (steps: seq<Step>)
    requires Kept(s)
    ensures var u := Run(s, steps);
            && Kept(u) && u.readyState == s.readyState && u.phase == s.phase
            && (s.readyState != Closed ==> u.n.pairedBytes == 0)
    ensures forall i :: 0 <= i < |steps| ==> steps[i] == PairedReceived(s.n.pairedBytes)
  {
    if s.readyState == Closed {
      steps := [];
    } else {
      var step := PairedReceived(s.n.pairedBytes);
      steps := [step];
      assert [step][..0] == [];
      StepKeepsChain(s, step);
      StepKeepsClose(s, step);
      StepKeepsBytes(s, step);
    }
  }

  /** With nothing left in the chain the next poll schedules the close. */
  lemma LastPoll(s: State, paired: bool) returns (steps: seq<Step>)
    requires s.phase == Polling || s.phase == Scheduled || s.phase == NativeClosed
    requires s.n.bufferedAmount == 0 && (s.readyState != Closed ==> s.n.pairedBytes == 0)
    ensures Run(s, steps).phase == NativeClosed
    ensures steps == [PollDrain(0, paired && s.readyState == Closed, paired), CloseTask]
  {
    steps := [PollDrain(0, paired && s.readyState == Closed, paired), CloseTask];
    assert steps[..1] == [steps[0]] && [steps[0]][..0] == [];
    assert Run(s, [steps[0]]) == Next(s, steps[0]);
  }

  /** The tasks that drain the channel, one poll and the close itself. */
  ghost predicate EndsClosing(step: Step, s: State, paired: bool) {
    || Drains(step) || step == CloseTask
    || step == PollDrain(0, paired && s.readyState == Closed, paired)
  }

  ghost predicate AllEndClosing(steps: seq<Step>, s: State, paired: bool) {
    forall i :: 0 <= i < |steps| ==> EndsClosing(steps[i], s, paired)
  }

  lemma DrainsEndClosing(steps: seq<Step>, s: State, paired: bool)
    requires forall i :: 0 <= i < |steps| ==> Drains(steps[i])
    ensures AllEndClosing(steps, s, paired)
  {
  }

  lemma BothEndClosing(a: seq<Step>, b: seq<Step>, s: State, paired: bool)
    requires AllEndClosing(a, s, paired) && AllEndClosing(b, s, paired)
    ensures AllEndClosing(a + b, s, paired)
  {
  }

  /** The chain has run, and with it the close that waited in it. */
  lemma DrainedCloses(u: State, drain: seq<Step>)
    requires Kept(u) && u.phase != NotClosing && Run(u, drain).chain.jobs == []
    ensures Run(u, drain).phase != NotClosing && Run(u, drain).phase != Chained
  {
    ReturnedIsFixed(u, drain);
    RunKeepsClose(u, drain);
  }

  /** Everything after the receipt. */
  lemma DrainThenClose(u: State, paired: bool) returns (steps: seq<Step>)
    requires Kept(u) && u.phase != NotClosing && (u.readyState != Closed ==> u.n.pairedBytes == 0)
    ensures Run(u, steps).phase == NativeClosed && AllEndClosing(steps, u, paired)
  {
    var drain := AmountDrains(u);
    DrainingKeeps(u, drain);
    DrainedCloses(u, drain);
    var last := LastPoll(Run(u, drain), paired);
    RunAppend(u, drain, last);
    DrainsEndClosing(drain, u, paired);
    BothEndClosing(drain, last, u, paired);
    steps := drain + last;
  }

  /**
    Once close() has been called, the native close comes: by the tasks that drain the channel
    and the receipts of its pair, with the deadline needed only for a pair after the channel closed.
   */
  lemma CloseReachesNative(s: State, paired: bool) returns (receipt: seq<Step>, steps: seq<Step>)
    requires Kept(s) && s.phase != NotClosing
    ensures Run(s, receipt + steps).phase == NativeClosed
    ensures forall i :: 0 <= i < |receipt| ==> receipt[i] == PairedReceived(s.n.pairedBytes)
    ensures AllEndClosing(steps, Run(s, receipt), paired) && Run(s, receipt).readyState == s.readyState
  {
    receipt := Acknowledge(s);
    steps := DrainThenClose(Run(s, receipt), paired);
    RunAppend(s, receipt, steps);
  }

  lemma {:induction false} RunKeepsClose(s: State, steps: seq<Step>)
    requires ChainInv(s.chain) && CloseInv(s)
    ensures ChainInv(Run(s, steps).chain) && CloseInv(Run(s, steps))
  {
    if steps != [] {
      var u, step := Run(s, steps[..|steps| - 1]), steps[|steps| - 1];
      RunKeepsClose(s, steps[..|steps| - 1]);
      StepKeepsChain(u, step);
      StepKeepsClose(u, step);
    }
  }

  /** After close(), and without a late open event, every send is refused and leaves no trace. */
  lemma NothingIsSentAfterClose(steps: seq<Step>, kind: Kind, size: nat, tooLong: bool, v: Native)
    requires NoLateOpen(steps) && Run(INITIAL, steps).phase != NotClosing
    ensures var s := Run(INITIAL, steps);
            ResultOf(s, kind, tooLong, v) == InvalidState && Next(s, SendCall(kind, size, tooLong, v)) == s
  {
    WithoutLateOpen(steps);
  }

  // ---- the bytes it waits for -----------------------------------------------

  /** The pending decrease waits for the native buffer as long as the channel is not closed. */
  lemma DecreaseWaitsForNative(s: State, nativeBuffered: nat)
    ensures var u := Next(s, FlushDecrease(nativeBuffered));
            && u == s.(n := u.n)
            && (nativeBuffered > 0 && s.readyState != Closed ==>
                  u.n == s.n || (s.n.pendingDecrease == 0 && u.n == s.n.(decreaseScheduled := false)))
            && (s.n.decreaseScheduled && (nativeBuffered == 0 || s.readyState == Closed) ==>
                  && u.n.pendingDecrease == 0 && !u.n.decreaseScheduled
                  && u.n.bufferedAmount == Minus(s.n.bufferedAmount, s.n.pendingDecrease))
  {
  }

  /** The bytes a step hands to the native channel for a paired receiver. */
  ghost function SentToPair(s: State, step: Step): nat {
    var u := Next(s, step);
    if |u.chain.resolved| <= |s.chain.resolved| || u.chain.resolved[|u.chain.resolved| - 1].fate == Reported then 0
    else
      match step
      case SendCall(_, size, _, v) => if v.paired then size else 0
      case Attempt(v) => if v.paired && s.chain.jobs != [] && s.chain.jobs[0].Send? then s.chain.jobs[0].size else 0
      case _ => 0
  }

  ghost function AllSentToPair(steps: seq<Step>): nat {
    if steps == [] then 0
    else AllSentToPair(steps[..|steps| - 1]) + SentToPair(Run(INITIAL, steps[..|steps| - 1]), steps[|steps| - 1])
  }

  /** The bytes the paired receiver has acknowledged, up to the end of the channel. */
  ghost function Acknowledged(steps: seq<Step>): nat {
    if steps == [] then 0
    else
      var before, step := steps[..|steps| - 1], steps[|steps| - 1];
      Acknowledged(before)
      + if step.PairedReceived? && Run(INITIAL, before).readyState != Closed then step.size else 0
  }

  ghost predicate NeverAhead(steps: seq<Step>) {
    forall n :: 0 <= n <= |steps| ==> Acknowledged(steps[..n]) <= AllSentToPair(steps[..n])
  }

  lemma StepCountsPaired(s: State, step: Step)
    ensures var got := if step.PairedReceived? && s.readyState != Closed then step.size else 0;
            Next(s, step).n.pairedBytes == Minus(s.n.pairedBytes + SentToPair(s, step), got)
  {
    match step
    case SendCall(_, _, _, _) =>
    case Attempt(_) =>
    case Settle(_) =>
    case CloseCall =>
    case RunCloseJob =>
    case PollDrain(_, _, _) =>
    case FlushDecrease(_) =>
    case SyntheticFires =>
    case PairedReceived(_) =>
    case _ =>
  }

  /**
    The bytes a paired close waits for are those handed over for the pair and not acknowledged:
    never fewer, and exactly those as long as the pair acknowledges only what was handed over.
   */
  lemma {:induction false} PairedBytesAreUnacknowledged(steps: seq<Step>)
    ensures Run(INITIAL, steps).n.pairedBytes >= AllSentToPair(steps) - Acknowledged(steps)
    ensures NeverAhead(steps) ==> Run(INITIAL, steps).n.pairedBytes == AllSentToPair(steps) - Acknowledged(steps)
  {
    if steps != [] {
      var before, step := steps[..|steps| - 1], steps[|steps| - 1];
      PairedBytesAreUnacknowledged(before);
      StepCountsPaired(Run(INITIAL, before), step);
      if NeverAhead(steps) {
        forall n | 0 <= n <= |before| ensures Acknowledged(before[..n]) <= AllSentToPair(before[..n]) {
          assert before[..n] == steps[..n];
        }
        assert steps[..|steps|] == steps;
      }
    }
  }

  /** A paired close without deadline comes after the pair has acknowledged every byte it was sent. */
  lemma PairedCloseIsAcknowledged(steps: seq<Step>, nativeBuffered: nat)
    requires var s := Run(INITIAL, steps);
             s.phase == Polling && Next(s, PollDrain(nativeBuffered, false, true)).phase == Scheduled
    ensures Acknowledged(steps) >= AllSentToPair(steps)
  {
    PairedBytesAreUnacknowledged(steps);
    NativeCloseIsScheduledExactly(steps, PollDrain(nativeBuffered, false, true));
  }
}
