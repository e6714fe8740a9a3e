/**
  What a send and its attempts end in, and when bufferedAmount stays exactly the bytes still
  owed to it although a paired receiver acknowledges some of them early.
 */
module OutboundAccount {
  import opened OutboundChannel

  // ---- how sends end --------------------------------------------------------

  /** A send that is refused leaves no trace; any other one is counted and taken now or queued. */
  lemma SendEndsExactly(s: State, kind: Kind, size: nat, tooLong: bool, v: Native)
    ensures var u, result := Next(s, SendCall(kind, size, tooLong, v)), ResultOf(s, kind, tooLong, v);
            var direct := kind != Blob && s.chain.pendingSends == 0 && (v.synthetic || v.isOpen);
            && result == (if s.readyState != Open then InvalidState
                          else if tooLong then TooLong
                          else if direct && !v.synthetic && v.outcome == Throws then NativeError
                          else Returned)
            && (if result != Returned then u == s
                else
                  && u.chain.calls == s.chain.calls + 1 && u.n.bufferedAmount == s.n.bufferedAmount + size
                  && if direct && (v.synthetic || v.outcome == Accepted)
                     then && u.chain.jobs == s.chain.jobs && u.chain.pendingSends == s.chain.pendingSends
                          && u.chain.resolved == s.chain.resolved
                             + [Resolution(s.chain.calls, kind, if v.synthetic then ToPair else ToNative)]
                     else && u.chain.jobs == s.chain.jobs + [Send(s.chain.calls, kind, size)]
                          && u.chain.pendingSends == s.chain.pendingSends + 1
                          && u.chain.resolved == s.chain.resolved)
  {
  }

  /** The running send waits while the native channel refuses it; otherwise it has its outcome. */
  lemma AttemptEndsExactly(s: State, v: Native)
    requires s.chain.jobs != [] && s.chain.jobs[0].Send? && !s.chain.settling
    ensures var u, job := Next(s, Attempt(v)), s.chain.jobs[0];
            if !v.synthetic && v.outcome == Refused then u == s
            else
              && u.chain == s.chain.(settling := true,
                                     resolved := s.chain.resolved
                                       + [Resolution(job.id, job.kind,
                                                     if v.synthetic then ToPair
                                                     else if v.outcome == Accepted then ToNative else Reported)])
              && u.n == s.n.(pairedBytes := s.n.pairedBytes
                               + if v.paired && (v.synthetic || v.outcome == Accepted) then job.size else 0)
  {
  }

  /** Events of the native channel move the ready state forward; only a late open event moves it back. */
  lemma EventsMoveReadyState(s: State, step: Step)
    ensures Next(s, step).readyState ==
              match step
              case Opens(late) => if late || s.readyState == Connecting then Open else s.readyState
              case CloseCall => if s.readyState == Closed then Closed else Closing
              case RemoteCloses => if s.readyState == Closed then Closed else Closing
              case Closes => Closed
              case _ => s.readyState
  {
  }

  // ---- the account ----------------------------------------------------------

  ghost predicate Exact(s: State) { s.n.bufferedAmount == Owed(s) }

  /** The state as it would be had no receipt been counted yet. */
  ghost function Unreceived(s: State): State { s.(n := s.n.(received := false)) }

  /** Without a receipt, the history does not matter to the counters, nor does it change. */
  ghost predicate SameBut(u: State, t: State, received: bool) {
    u.chain == t.chain && u.n == t.n.(received := received) && !t.n.received
  }

  lemma SendIgnoresHistory(s: State, kind: Kind, size: nat, tooLong: bool, v: Native)
    ensures SameBut(AfterSend(s, kind, size, tooLong, v), AfterSend(Unreceived(s), kind, size, tooLong, v), s.n.received)
  {
  }

  lemma ChainIgnoresHistory(s: State, v: Native, synthetic: bool)
    ensures SameBut(AfterAttempt(s, v), AfterAttempt(Unreceived(s), v), s.n.received)
    ensures SameBut(AfterSettle(s, synthetic), AfterSettle(Unreceived(s), synthetic), s.n.received)
  {
  }

  lemma StepIgnoresHistory(s: State, step: Step)
    requires !step.PairedReceived?
    ensures SameBut(Next(s, step), Next(Unreceived(s), step), s.n.received)
  {
    match step
    case SendCall(kind, size, tooLong, v) => SendIgnoresHistory(s, kind, size, tooLong, v);
    case Attempt(v) => ChainIgnoresHistory(s, v, false);
    case Settle(synthetic) => ChainIgnoresHistory(s, Native(false, Refused, false, false), synthetic);
    case CloseCall =>
    case RunCloseJob =>
    case PollDrain(_, _, _) =>
    case FlushDecrease(_) =>
    case SyntheticFires =>
    case _ =>
  }

  lemma OtherStepsKeepExact(s: State, step: Step)
    requires BytesInv(s) && Exact(s) && !step.PairedReceived?
    ensures Exact(Next(s, step))
  {
    StepIgnoresHistory(s, step);
    StepKeepsBytes(Unreceived(s), step);
    assert Owed(Next(s, step)) == Owed(Next(Unreceived(s), step));
  }

  /** The receipt is for bytes whose decrease is still pending, or nothing else is owed. */
  ghost predicate InTime(s: State, size: nat) {
    size <= s.n.pendingDecrease || s.n.pendingDecrease == Owed(s)
  }

  /**
    The exact limit: a receipt keeps the account right exactly when it is in time; a later one
    takes bytes off that belong to sends still on their way.
   */
  lemma ReceiptKeepsAccountExactly(s: State, size: nat)
    requires s.readyState != Closed && Exact(s)
    ensures Exact(Next(s, PairedReceived(size))) <==> InTime(s, size)
  {
  }

  ghost predicate AllInTime(steps: seq<Step>) {
    forall i :: 0 <= i < |steps| && steps[i].PairedReceived? ==>
      var s := Run(INITIAL, steps[..i]); s.readyState == Closed || InTime(s, steps[i].size)
  }

  /** On every run whose receipts are in time, bufferedAmount is exactly what is owed to it. */
  lemma {:induction false} AccountIsExact(steps: seq<Step>)
    requires AllInTime(steps)
    ensures Exact(Run(INITIAL, steps))
  {
    if steps == [] {
      assert Owed(INITIAL) == 0;
    } else {
      var n := |steps| - 1;
      var s := Run(INITIAL, steps[..n]);
      forall i | 0 <= i < n && steps[..n][i].PairedReceived?
        ensures var t := Run(INITIAL, steps[..n][..i]); t.readyState == Closed || InTime(t, steps[..n][i].size)
      {
        assert steps[..n][..i] == steps[..i];
      }
      AccountIsExact(steps[..n]);
      BufferedAmountIsConserved(steps[..n]);
      if steps[n].PairedReceived? {
        if s.readyState != Closed {
          ReceiptKeepsAccountExactly(s, steps[n].size);
        }
      } else {
        OtherStepsKeepExact(s, steps[n]);
      }
    }
  }

  lemma Extend(steps: seq<Step>, step: Step) returns (more: seq<Step>, s: State)
    ensures more == steps + [step] && s == Next(Run(INITIAL, steps), step) == Run(INITIAL, more)
  {
    more, s := steps + [step], Next(Run(INITIAL, steps), step);
    assert more[..|steps|] == steps;
  }

  /**
    A late receipt is within reach: the native buffer empties before the pair dispatches the
    message, and a blob waits in the chain. The amount then says zero with the blob unsent.
   */
  lemma LateReceiptUndercounts(size: nat) returns (steps: seq<Step>)
    requires size > 0
    ensures var s := Run(INITIAL, steps);
            s.n.bufferedAmount == 0 && s.chain.jobs == [Send(1, Blob, size)] && s.chain.pendingSends == 1
  {
    var v := Native(true, Accepted, false, true);
    var s;
    steps, s := Extend([], Opens(false));
    steps, s := Extend(steps, SendCall(Text, size, false, v));
    assert s.n.bufferedAmount == size && s.n.pendingDecrease == size;
    steps, s := Extend(steps, FlushDecrease(0));
    assert s.n.bufferedAmount == 0 && s.n.pendingDecrease == 0;
    steps, s := Extend(steps, SendCall(Blob, size, false, v));
    assert s.n.bufferedAmount == size && s.chain.jobs == [Send(1, Blob, size)];
    steps, s := Extend(steps, PairedReceived(size));
  }
}
