/**
  Greedy list scheduling on m shards, as the WPT runner uses it: every weight in
  turn goes to the first shard whose load is least. This module holds the
  approximation bounds; WptSharding.dfy ties them to the scheduler itself.
 */
module ListScheduling {

  /** Sum of a vector of loads or weights. */
  ghost function Sum(x: seq<nat>): nat {
    if x == [] then 0 else Sum(x[..|x| - 1]) + x[|x| - 1]
  }

  ghost predicate ValidTargets(m: nat, v: seq<nat>, a: seq<nat>) {
    |a| == |v| && forall i :: 0 <= i < |a| ==> a[i] < m
  }

  /** Shard loads after placing v[i] on shard a[i], for every i in order. */
  ghost function Loads(init: seq<nat>, v: seq<nat>, a: seq<nat>): (l: seq<nat>)
    requires ValidTargets(|init|, v, a)
    ensures |l| == |init|
    decreases |v|
  {
    if v == [] then init
    else
      var n := |v| - 1;
      var l := Loads(init, v[..n], a[..n]);
      l[a[n] := l[a[n]] + v[n]]
  }

  /** The total weight that a puts on shard s: what a shard is asked to run. */
  ghost function ShardWeight(v: seq<nat>, a: seq<nat>, s: nat): nat
    requires |a| == |v|
    decreases |v|
  {
    if v == [] then 0
    else
      var n := |v| - 1;
      ShardWeight(v[..n], a[..n], s) + if a[n] == s then v[n] else 0
  }

  /** Shard t is the first one of least load. */
  ghost predicate FirstLeast(l: seq<nat>, t: nat) {
    && t < |l|
    && (forall s :: 0 <= s < |l| ==> l[t] <= l[s])
    && (forall s :: 0 <= s < t ==> l[t] < l[s])
  }

  /** Every target in a is the first least-loaded shard at its turn. */
  ghost predicate IsGreedy(init: seq<nat>, v: seq<nat>, a: seq<nat>)
    requires ValidTargets(|init|, v, a)
    decreases |v|
  {
    v == [] ||
    var n := |v| - 1;
    IsGreedy(init, v[..n], a[..n]) && FirstLeast(Loads(init, v[..n], a[..n]), a[n])
  }

  ghost predicate AllAtMost(x: seq<nat>, T: nat) {
    forall s :: 0 <= s < |x| ==> x[s] <= T
  }

  /** Weights in descending order, heaviest first. */
  ghost predicate Descending(v: seq<nat>) {
    forall i, j :: 0 <= i < j < |v| ==> v[i] >= v[j]
  }

  ghost function Zeros(m: nat): seq<nat> { seq(m, _ => 0) }

  // ---- conservation -------------------------------------------------------

  lemma {:induction false} SumUpdate(x: seq<nat>, t: nat, w: nat)
    requires t < |x|
    ensures Sum(x[t := x[t] + w]) == Sum(x) + w
  {
    var n := |x| - 1;
    if t == n {
      assert x[t := x[t] + w][..n] == x[..n];
    } else {
      SumUpdate(x[..n], t, w);
      assert x[t := x[t] + w][..n] == x[..n][t := x[t] + w];
    }
  }

  lemma {:induction false} SumZeros(m: nat)
    ensures Sum(Zeros(m)) == 0
  {
    if m > 0 {
      SumZeros(m - 1);
      assert Zeros(m)[..m - 1] == Zeros(m - 1);
    }
  }

  /** Placing weights loses nothing and invents nothing. */
  lemma {:induction false} LoadsConserveWeight(init: seq<nat>, v: seq<nat>, a: seq<nat>)
    requires ValidTargets(|init|, v, a)
    ensures Sum(Loads(init, v, a)) == Sum(init) + Sum(v)
    decreases |v|
  {
    if v != [] {
      var n := |v| - 1;
      LoadsConserveWeight(init, v[..n], a[..n]);
      SumUpdate(Loads(init, v[..n], a[..n]), a[n], v[n]);
    }
  }

  /** A shard's load is what it started with plus exactly the weights placed on it. */
  lemma {:induction false} LoadIsShardWeight(init: seq<nat>, v: seq<nat>, a: seq<nat>, s: nat)
    requires ValidTargets(|init|, v, a) && s < |init|
    ensures Loads(init, v, a)[s] == init[s] + ShardWeight(v, a, s)
    decreases |v|
  {
    if v != [] {
      LoadIsShardWeight(init, v[..|v| - 1], a[..|v| - 1], s);
    }
  }

  lemma {:induction false} SumAtLeast(x: seq<nat>, c: nat)
    requires forall s :: 0 <= s < |x| ==> c <= x[s]
    ensures |x| * c <= Sum(x)
  {
    if x != [] {
      SumAtLeast(x[..|x| - 1], c);
      assert |x| * c == (|x| - 1) * c + c;
    }
  }

  lemma {:induction false} SumAtMost(x: seq<nat>, c: nat)
    requires AllAtMost(x, c)
    ensures Sum(x) <= |x| * c
  {
    if x != [] {
      SumAtMost(x[..|x| - 1], c);
      assert |x| * c == (|x| - 1) * c + c;
    }
  }

  /** Dropping the last weight of any assignment raises no load. */
  lemma {:induction false} PrefixAtMost(init: seq<nat>, v: seq<nat>, a: seq<nat>, T: nat)
    requires ValidTargets(|init|, v, a) && v != []
    requires AllAtMost(Loads(init, v, a), T)
    ensures AllAtMost(Loads(init, v[..|v| - 1], a[..|v| - 1]), T)
    ensures v[|v| - 1] <= T
  {
    var n := |v| - 1;
    var before, after := Loads(init, v[..n], a[..n]), Loads(init, v, a);
    forall s | 0 <= s < |before|
      ensures before[s] <= T
    {
      assert before[s] <= after[s];
    }
    assert after[a[n]] == before[a[n]] + v[n];
  }

  // ---- Graham's list-scheduling bound -------------------------------------

  /** The averaging step: a weight w placed on a least-loaded shard. */
  lemma {:induction false} LeastLoadedAverage(init: seq<nat>, v: seq<nat>, a: seq<nat>, alt: seq<nat>, T: nat)
    requires ValidTargets(|init|, v, a) && ValidTargets(|init|, v, alt) && v != []
    requires FirstLeast(Loads(init, v[..|v| - 1], a[..|v| - 1]), a[|v| - 1])
    requires AllAtMost(Loads(init, v, alt), T)
    ensures |init| * Loads(init, v, a)[a[|v| - 1]] + v[|v| - 1] <= |init| * (T + v[|v| - 1])
  {
    var n := |v| - 1;
    var l := Loads(init, v[..n], a[..n]);
    SumAtLeast(l, l[a[n]]);
    LoadsConserveWeight(init, v[..n], a[..n]);
    LoadsConserveWeight(init, v, alt);
    SumAtMost(Loads(init, v, alt), T);
    AverageStep(|init|, l[a[n]], v[n], T, Sum(l));
  }

  lemma {:induction false} AverageStep(m: nat, x: nat, w: nat, T: nat, total: nat)
    requires m * x <= total && total + w <= m * T
    ensures m * (x + w) + w <= m * (T + w)
  {
    assert m * (x + w) == m * x + m * w;
    assert m * (T + w) == m * T + m * w;
  }

  /**
    Graham's bound with arbitrary initial loads: no assignment of the same weights on
    top of the same initial loads has a makespan T with m * max > (2m - 1) * T.
   */
  lemma {:induction false} GreedyWithinTwiceOptimal(
      init: seq<nat>, v: seq<nat>, a: seq<nat>, alt: seq<nat>, T: nat, s: nat)
    requires ValidTargets(|init|, v, a) && ValidTargets(|init|, v, alt)
    requires IsGreedy(init, v, a)
    requires AllAtMost(Loads(init, v, alt), T)
    requires s < |init|
    ensures |init| * Loads(init, v, a)[s] <= (2 * |init| - 1) * T
    decreases |v|
  {
    var m := |init|;
    if v == [] {
      ScaleBound(m, init[s], T);
    } else {
      var n := |v| - 1;
      PrefixAtMost(init, v, alt, T);
      if s == a[n] {
        LeastLoadedAverage(init, v, a, alt, T);
        TwiceOptimal(m, Loads(init, v, a)[s], v[n], T);
      } else {
        GreedyWithinTwiceOptimal(init, v[..n], a[..n], alt[..n], T, s);
      }
    }
  }

  lemma ScaleBound(m: nat, x: nat, T: nat)
    requires m >= 1 && x <= T
    ensures m * x <= (2 * m - 1) * T
    ensures 3 * m * x <= (4 * m - 1) * T
  {
    assert m * x <= m * T;
    assert (2 * m - 1) * T == m * T + (m - 1) * T;
    assert (4 * m - 1) * T == 3 * (m * T) + (m - 1) * T;
    assert 3 * m * x == 3 * (m * x);
  }

  lemma TwiceOptimal(m: nat, x: nat, w: nat, T: nat)
    requires m >= 1 && w <= T && m * x + w <= m * (T + w)
    ensures m * x <= (2 * m - 1) * T
  {
    assert m * (T + w) - w == m * T + (m - 1) * w;
    assert (m - 1) * w <= (m - 1) * T;
    assert (2 * m - 1) * T == m * T + (m - 1) * T;
  }

  lemma FourThirdsOptimal(m: nat, x: nat, w: nat, T: nat)
    requires m >= 1 && 3 * w <= T && m * x + w <= m * (T + w)
    ensures 3 * m * x <= (4 * m - 1) * T
  {
    assert m * (T + w) - w == m * T + (m - 1) * w;
    assert (m - 1) * (3 * w) <= (m - 1) * T;
    assert (m - 1) * (3 * w) == 3 * ((m - 1) * w);
    assert (4 * m - 1) * T == 3 * (m * T) + (m - 1) * T;
    assert 3 * m * x == 3 * (m * x);
  }

  // ---- Graham's LPT bound -------------------------------------------------
  //
  // Let w be the last weight placed and T a feasible makespan with 3w > T. A weight
  // is huge when w no longer fits beside it. Charge 2 for a huge weight and 1 for any
  // other. No feasible shard is charged more than 2, so all weights together are
  // charged at most 2m; a greedy shard on which w does not fit is charged at least 2,
  // so if w fitted nowhere the charge, w included, would exceed 2m.

  ghost function Charge(w: nat, T: nat, x: nat): nat { if x + w > T then 2 else 1 }

  ghost function Charges(w: nat, T: nat, v: seq<nat>): (c: seq<nat>)
    ensures |c| == |v|
  {
    seq(|v|, i requires 0 <= i < |v| => Charge(w, T, v[i]))
  }

  lemma ChargesPrefix(w: nat, T: nat, v: seq<nat>)
    requires v != []
    ensures Charges(w, T, v)[..|v| - 1] == Charges(w, T, v[..|v| - 1])
  {
  }

  /** What a shard's charge says about its load, from below. */
  ghost function LeastLoadFor(w: nat, T: nat, c: nat): nat
    requires w <= T
  {
    if c == 0 then 0
    else if c == 1 then w
    else if c == 2 then (if 2 * w <= T - w + 1 then 2 * w else T - w + 1)
    else T + 1
  }

  lemma {:induction false} ChargedLoads(m: nat, w: nat, T: nat, v: seq<nat>, a: seq<nat>, s: nat)
    requires ValidTargets(m, v, a) && s < m
    requires w <= T < 3 * w
    requires forall i :: 0 <= i < |v| ==> w <= v[i]
    ensures LeastLoadFor(w, T, Loads(Zeros(m), Charges(w, T, v), a)[s]) <= Loads(Zeros(m), v, a)[s]
    ensures Loads(Zeros(m), Charges(w, T, v), a)[s] == 0 ==> Loads(Zeros(m), v, a)[s] == 0
    ensures Loads(Zeros(m), Charges(w, T, v), a)[s] == 1 ==> Loads(Zeros(m), v, a)[s] + w <= T
    decreases |v|
  {
    if v != [] {
      var n := |v| - 1;
      ChargesPrefix(w, T, v);
      ChargedLoads(m, w, T, v[..n], a[..n], s);
    }
  }

  /**
    When the last weight exceeds a third of a feasible makespan T and no earlier weight
    is smaller, a least-loaded shard has room for it: greedy stays within T itself.
   */
  lemma {:induction false} LargeLastWeightFits(m: nat, v: seq<nat>, a: seq<nat>, alt: seq<nat>, T: nat)
    requires m >= 1 && v != []
    requires ValidTargets(m, v, a) && ValidTargets(m, v, alt)
    requires FirstLeast(Loads(Zeros(m), v[..|v| - 1], a[..|v| - 1]), a[|v| - 1])
    requires forall i :: 0 <= i < |v| ==> v[|v| - 1] <= v[i]
    requires AllAtMost(Loads(Zeros(m), v, alt), T)
    requires T < 3 * v[|v| - 1]
    ensures Loads(Zeros(m), v, a)[a[|v| - 1]] <= T
  {
    var n := |v| - 1;
    var w := v[n];
    PrefixAtMost(Zeros(m), v, alt, T);
    var l := Loads(Zeros(m), v[..n], a[..n]);
    if l[a[n]] + w > T {
      var c := Charges(w, T, v);
      var greedyCharge := Loads(Zeros(m), Charges(w, T, v[..n]), a[..n]);
      forall s | 0 <= s < m
        ensures 2 <= greedyCharge[s]
      {
        ChargedLoads(m, w, T, v[..n], a[..n], s);
      }
      SumAtLeast(greedyCharge, 2);
      LoadsConserveWeight(Zeros(m), Charges(w, T, v[..n]), a[..n]);
      ChargesPrefix(w, T, v);
      SumZeros(m);
      assert Sum(c) == Sum(c[..n]) + c[n];
      assert |greedyCharge| == m && Sum(c) >= 2 * m + 1;
      var optimalCharge := Loads(Zeros(m), c, alt);
      forall s | 0 <= s < m
        ensures optimalCharge[s] <= 2
      {
        ChargedLoads(m, w, T, v, alt, s);
      }
      SumAtMost(optimalCharge, 2);
      LoadsConserveWeight(Zeros(m), c, alt);
      assert false;
    }
  }

  /**
    Graham's bound for longest processing time first from empty shards: against every
    assignment with makespan at most T, 3m * max <= (4m - 1) * T.
   */
  lemma {:induction false} LptWithinFourThirdsOptimal(m: nat, v: seq<nat>, a: seq<nat>, alt: seq<nat>, T: nat, s: nat)
    requires m >= 1
    requires ValidTargets(m, v, a) && ValidTargets(m, v, alt)
    requires Descending(v) && IsGreedy(Zeros(m), v, a)
    requires AllAtMost(Loads(Zeros(m), v, alt), T)
    requires s < m
    ensures 3 * m * Loads(Zeros(m), v, a)[s] <= (4 * m - 1) * T
    decreases |v|
  {
    if v == [] {
      ScaleBound(m, 0, T);
    } else {
      var n := |v| - 1;
      PrefixAtMost(Zeros(m), v, alt, T);
      if s != a[n] {
        LptWithinFourThirdsOptimal(m, v[..n], a[..n], alt[..n], T, s);
      } else if 3 * v[n] <= T {
        LeastLoadedAverage(Zeros(m), v, a, alt, T);
        FourThirdsOptimal(m, Loads(Zeros(m), v, a)[s], v[n], T);
      } else {
        LargeLastWeightFits(m, v, a, alt, T);
        ScaleBound(m, Loads(Zeros(m), v, a)[s], T);
      }
    }
  }

  /** The same bound, for initial loads known to be zero. */
  lemma LptFromEmptyShards(init: seq<nat>, v: seq<nat>, a: seq<nat>, alt: seq<nat>, T: nat, s: nat)
    requires ValidTargets(|init|, v, a) && ValidTargets(|init|, v, alt)
    requires forall i :: 0 <= i < |init| ==> init[i] == 0
    requires Descending(v) && IsGreedy(init, v, a)
    requires AllAtMost(Loads(init, v, alt), T)
    requires s < |init|
    ensures 3 * |init| * Loads(init, v, a)[s] <= (4 * |init| - 1) * T
  {
    assert init == Zeros(|init|);
    LptWithinFourThirdsOptimal(|init|, v, a, alt, T, s);
  }

  /** One more placement, stated on the extended sequences. */
  lemma LoadsAppend(init: seq<nat>, v: seq<nat>, a: seq<nat>, w: nat, t: nat)
    requires ValidTargets(|init|, v, a) && t < |init|
    ensures var l := Loads(init, v, a);
            && Loads(init, v + [w], a + [t]) == l[t := l[t] + w]
            && IsGreedy(init, v + [w], a + [t]) == (IsGreedy(init, v, a) && FirstLeast(l, t))
  {
    assert (v + [w])[..|v|] == v && (a + [t])[..|a|] == a;
  }

  /** A greedy run and a rival assignment of descending weights on two shards. */
  ghost predicate TwoRuns(v: seq<nat>, a: seq<nat>, alt: seq<nat>, l: seq<nat>, k: seq<nat>) {
    && ValidTargets(2, v, a) && ValidTargets(2, v, alt) && |l| == |k| == 2
    && Descending(v) && IsGreedy(Zeros(2), v, a)
    && Loads(Zeros(2), v, a) == l && Loads(Zeros(2), v, alt) == k
  }

  /** Extends a greedy run and a rival assignment by one weight, loads l and k in hand. */
  lemma Place(v: seq<nat>, a: seq<nat>, alt: seq<nat>, l: seq<nat>, k: seq<nat>, w: nat, t: nat, u: nat)
      returns (v': seq<nat>, a': seq<nat>, alt': seq<nat>)
    requires TwoRuns(v, a, alt, l, k) && FirstLeast(l, t) && u < 2
    requires v == [] || w <= v[|v| - 1]
    ensures v' != [] && v'[|v'| - 1] == w
    ensures TwoRuns(v', a', alt', l[t := l[t] + w], k[u := k[u] + w])
  {
    v', a', alt' := v + [w], a + [t], alt + [u];
    LoadsAppend(Zeros(2), v, a, w, t);
    LoadsAppend(Zeros(2), v, alt, w, u);
  }

  /** The constant cannot be improved for two shards: 7 against an optimum of 6. */
  lemma LptBoundIsAttained() returns (v: seq<nat>, a: seq<nat>, alt: seq<nat>)
    ensures ValidTargets(2, v, a) && ValidTargets(2, v, alt)
    ensures Descending(v) && IsGreedy(Zeros(2), v, a)
    ensures Loads(Zeros(2), v, alt) == [6, 6]
    ensures 3 * 2 * Loads(Zeros(2), v, a)[0] == (4 * 2 - 1) * 6
  {
    v, a, alt := FirstThreeWeights();
    v, a, alt := Place(v, a, alt, [5, 3], [6, 2], 2, 1, 1);
    v, a, alt := Place(v, a, alt, [5, 5], [6, 4], 2, 0, 1);
  }

  lemma FirstThreeWeights() returns (v: seq<nat>, a: seq<nat>, alt: seq<nat>)
    ensures TwoRuns(v, a, alt, [5, 3], [6, 2]) && v != [] && v[|v| - 1] == 2
  {
    v, a, alt := Place([], [], [], [0, 0], [0, 0], 3, 0, 0);
    v, a, alt := Place(v, a, alt, [3, 0], [3, 0], 3, 1, 0);
    v, a, alt := Place(v, a, alt, [3, 3], [6, 0], 2, 0, 1);
  }

  // ---- balance ------------------------------------------------------------

  /** Any two loads differ by at most d. */
  ghost predicate SpreadAtMost(x: seq<nat>, d: nat) {
    forall i, j :: 0 <= i < |x| && 0 <= j < |x| ==> x[i] <= x[j] + d
  }

  /** Greedy never makes the shards more uneven than they were or than one weight is. */
  lemma {:induction false} GreedyKeepsSpread(init: seq<nat>, v: seq<nat>, a: seq<nat>, d: nat)
    requires ValidTargets(|init|, v, a) && IsGreedy(init, v, a)
    requires SpreadAtMost(init, d)
    requires forall i :: 0 <= i < |v| ==> v[i] <= d
    ensures SpreadAtMost(Loads(init, v, a), d)
    decreases |v|
  {
    if v != [] {
      GreedyKeepsSpread(init, v[..|v| - 1], a[..|v| - 1], d);
    }
  }
}
