/**
  A channel's sends and the native sender thread together: what the wire carries of the binary
  messages, in terms of the calls that sent them.
 */
module WireOrder {
  import O = OutboundChannel
  import A = AsyncSender
  import opened Subsequences

  /** Channel c, and the sender thread it shares with all others. */
  datatype State = State(channel: O.State, wire: A.State)

  datatype Step =
    | Channel(step: O.Step)
    | OtherChannel(payload: A.Payload)
    | Worker(work: A.Step)

  /** Binary data the native channel has taken: sendBinary hands it to the sender thread. */
  predicate IsBinary(r: O.Resolution) { r.fate == O.ToNative && r.kind != O.Text }

  /** The binary sends handed to the sender thread, in the order of the outcomes. */
  ghost function Binaries(resolved: seq<O.Resolution>, c: nat): seq<A.Payload> {
    if resolved == [] then []
    else
      var n := |resolved| - 1;
      Binaries(resolved[..n], c) + if IsBinary(resolved[n]) then [A.Payload(c, resolved[n].id)] else []
  }

  ghost function HandOver(wire: A.State, before: seq<O.Resolution>, after: seq<O.Resolution>, c: nat): A.State {
    if |after| > |before| && IsBinary(after[|after| - 1])
    then A.Next(wire, A.Enqueue(A.Payload(c, after[|after| - 1].id))) else wire
  }

  ghost function Next(s: State, step: Step, c: nat): State {
    match step
    case Channel(o) =>
      var t := O.Next(s.channel, o);
      State(t, HandOver(s.wire, s.channel.chain.resolved, t.chain.resolved, c))
    case OtherChannel(p) => if p.channel == c then s else s.(wire := A.Next(s.wire, A.Enqueue(p)))
    case Worker(a) => if a.Enqueue? then s else s.(wire := A.Next(s.wire, a))
  }

  ghost function Run(s: State, steps: seq<Step>, c: nat): State {
    if steps == [] then s else Next(Run(s, steps[..|steps| - 1], c), steps[|steps| - 1], c)
  }

  const INITIAL := State(O.INITIAL, A.INITIAL)

  ghost predicate Inv(s: State, c: nat) {
    && A.Inv(s.wire) && O.ChainInv(s.channel.chain)
    && A.OnChannel(s.wire.offered, c) == Binaries(s.channel.chain.resolved, c)
  }

  /** A step of the channel has at most one outcome. */
  lemma OneOutcomeAtATime(s: O.State, step: O.Step)
    ensures var before, after := s.chain.resolved, O.Next(s, step).chain.resolved;
            after == before || (|after| == |before| + 1 && after[..|before|] == before)
  {
    match step
    case SendCall(_, _, _, _) =>
    case Attempt(_) =>
    case Settle(_) =>
    case CloseCall =>
    case RunCloseJob =>
    case _ =>
  }

  lemma HandOverKeeps(wire: A.State, before: seq<O.Resolution>, after: seq<O.Resolution>, c: nat)
    requires A.Inv(wire) && A.OnChannel(wire.offered, c) == Binaries(before, c)
    requires after == before || (|after| == |before| + 1 && after[..|before|] == before)
    ensures var w := HandOver(wire, before, after, c);
            A.Inv(w) && A.OnChannel(w.offered, c) == Binaries(after, c)
  {
    if after != before && IsBinary(after[|before|]) {
      var p := A.Payload(c, after[|before|].id);
      A.StepKeepsInv(wire, A.Enqueue(p));
      A.OnChannelAppend(wire.offered, p, c);
    }
  }

  lemma StepKeepsInv(s: State, step: Step, c: nat)
    requires Inv(s, c)
    ensures Inv(Next(s, step, c), c)
  {
    match step
    case Channel(o) =>
      O.StepKeepsChain(s.channel, o);
      OneOutcomeAtATime(s.channel, o);
      HandOverKeeps(s.wire, s.channel.chain.resolved, O.Next(s.channel, o).chain.resolved, c);
    case OtherChannel(p) =>
      A.StepKeepsInv(s.wire, A.Enqueue(p));
      A.OnChannelAppend(s.wire.offered, p, c);
    case Worker(a) => A.StepKeepsInv(s.wire, a);
  }

  lemma {:induction false} RunKeepsInv(steps: seq<Step>, c: nat)
    ensures Inv(Run(INITIAL, steps, c), c)
  {
    if steps == [] {
      O.RunKeepsOrder([]);
      A.AcceptedIsAccountedFor([]);
      assert O.Run(O.INITIAL, []) == O.INITIAL && A.Run(A.INITIAL, []) == A.INITIAL;
    } else {
      RunKeepsInv(steps[..|steps| - 1], c);
      StepKeepsInv(Run(INITIAL, steps[..|steps| - 1], c), steps[|steps| - 1], c);
    }
  }

  // ---- the order on the wire ------------------------------------------------

  ghost predicate Increasing(payloads: seq<A.Payload>) {
    forall i, j :: 0 <= i < j < |payloads| ==> payloads[i].id < payloads[j].id
  }

  lemma {:induction false} BinariesIncrease(resolved: seq<O.Resolution>, c: nat)
    requires forall i :: 0 <= i < |resolved| ==> resolved[i].id == i
    ensures Increasing(Binaries(resolved, c))
    ensures forall p :: p in Binaries(resolved, c) ==> p.id < |resolved| && IsBinary(resolved[p.id])
  {
    if resolved != [] {
      var n := |resolved| - 1;
      BinariesIncrease(resolved[..n], c);
      if IsBinary(resolved[n]) {
        IncreasingMore(Binaries(resolved[..n], c), A.Payload(c, n));
      }
    }
  }

  lemma IncreasingMore(payloads: seq<A.Payload>, p: A.Payload)
    requires Increasing(payloads) && forall q :: q in payloads ==> q.id < p.id
    ensures Increasing(payloads + [p])
  {
    forall i | 0 <= i < |payloads| ensures payloads[i].id < p.id {
      assert payloads[i] in payloads;
    }
  }

  lemma {:induction false} SubsequenceIncreases(a: seq<A.Payload>, b: seq<A.Payload>)
    requires Subsequence(a, b) && Increasing(b)
    ensures Increasing(a) && forall p :: p in a ==> p in b
    decreases |b|
  {
    if a != [] {
      var m, n := |a| - 1, |b| - 1;
      if Subsequence(a, b[..n]) {
        SubsequenceIncreases(a, b[..n]);
      } else {
        SubsequenceIncreases(a[..m], b[..n]);
        forall i | 0 <= i < m ensures a[i].id < a[m].id {
          assert a[..m][i] in b[..n];
        }
        assert a == a[..m] + [a[m]];
      }
    }
  }

  /**
    On the wire the binary messages of a channel come in the order of the send() calls, each at
    most once, and each is a call that returned and that the native channel took: through the
    promise chain, the queue shared with other channels, its cap, and sends that fail.
   */
  lemma WireKeepsCallOrder(steps: seq<Step>, c: nat)
    ensures var s := Run(INITIAL, steps, c);
            var resolved, sent := s.channel.chain.resolved, A.OnChannel(A.Transmitted(s.wire.processed), c);
            && (forall i, j :: 0 <= i < j < |sent| ==> sent[i].id < sent[j].id)
            && (forall p :: p in sent ==> p.id < |resolved| && resolved[p.id].id == p.id && IsBinary(resolved[p.id]))
  {
    RunKeepsInv(steps, c);
    var s := Run(INITIAL, steps, c);
    var resolved := s.channel.chain.resolved;
    ResolvedIds(s.channel.chain);
    BinariesIncrease(resolved, c);
    A.TransmittedInOrder(s.wire, c);
    SubsequenceIncreases(A.OnChannel(s.wire.accepted, c), Binaries(resolved, c));
    SubsequenceIncreases(A.OnChannel(A.Transmitted(s.wire.processed), c), A.OnChannel(s.wire.accepted, c));
  }

  lemma ResolvedIds(chain: O.Chain)
    requires O.ChainInv(chain)
    ensures forall i :: 0 <= i < |chain.resolved| ==> chain.resolved[i].id == i
  {
    forall i | 0 <= i < |chain.resolved| ensures chain.resolved[i].id == i {
      assert (O.Ids(chain.resolved) + O.SendIds(O.Unsettled(chain)))[i] == O.Upto(chain.calls)[i];
    }
  }
}
