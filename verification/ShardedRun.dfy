/** What each shard of a sharded WPT run executes, and why the shards partition the run. */
module ShardedRun {
  import opened Wrappers
  import opened Permutations
  import opened ListScheduling
  import opened WptSharding
  import opened WptMerge

  datatype Spec = Spec(file: string, search: string)

  /** What discovery found for one spec: its test names, or a failed discovery. */
  datatype Discovery = Discovery(spec: Spec, tests: seq<string>, failed: bool)

  /** One thing a shard does: report a failed discovery, run one test, or run a whole spec. */
  datatype Unit = FailedDiscovery(index: nat) | OneTest(index: nat, test: nat) | WholeSpec(index: nat)

  function FileOf(d: Discovery): string { d.spec.file + d.spec.search }

  // ---- keys of spec groups --------------------------------------------------

  function Digit(d: nat): char
    requires d < 10
  {
    ('0' as int + d) as char
  }

  function Decimal(n: nat): string {
    if n < 10 then [Digit(n)] else Decimal(n / 10) + [Digit(n % 10)]
  }

  function SpecGroupKey(d: Discovery, index: nat): string { Identity(FileOf(d), Decimal(index)) }

  ghost function Value(s: string): int {
    if s == "" then 0 else 10 * Value(s[..|s| - 1]) + (s[|s| - 1] as int - '0' as int)
  }

  lemma {:induction false} DecimalValue(n: nat)
    ensures Value(Decimal(n)) == n && NUL !in Decimal(n)
  {
    if n >= 10 {
      DecimalValue(n / 10);
      assert Decimal(n)[..|Decimal(n)| - 1] == Decimal(n / 10);
    } else {
      assert Decimal(n)[..0] == "";
    }
  }

  /** Specs at different positions never share a group key, whatever they are called. */
  lemma SpecGroupKeysDiffer(d: Discovery, i: nat, e: Discovery, j: nat)
    ensures SpecGroupKey(d, i) == SpecGroupKey(e, j) ==> i == j
  {
    DecimalValue(i);
    DecimalValue(j);
    IdentityCollision(FileOf(d), Decimal(i), FileOf(e), Decimal(j));
    SplitPutsNulInName(FileOf(d), Decimal(i), FileOf(e), Decimal(j));
    SplitPutsNulInName(FileOf(e), Decimal(j), FileOf(d), Decimal(i));
  }

  lemma SplitPutsNulInName(f: string, n: string, f': string, n': string)
    ensures SplitsAtNul(f, n, f', n') ==> NUL in n
  {
    if SplitsAtNul(f, n, f', n') {
      var p: string :| n == p + [NUL] + n';
      assert n[|p|] == NUL;
    }
  }

  // ---- the plan every shard computes ----------------------------------------

  ghost predicate PerTest(d: Discovery, isolated: set<string>) { !d.failed && d.spec.file in isolated }

  ghost predicate Grouped(d: Discovery, isolated: set<string>) { !d.failed && d.spec.file !in isolated }

  /** Hashing a test needs a file and a name. */
  ghost predicate Hashable(d: Discovery, isolated: set<string>) {
    PerTest(d, isolated) ==> forall name :: name in d.tests ==> FileOf(d) != "" && name != ""
  }

  ghost function SpecGroups(ds: seq<Discovery>, isolated: set<string>): seq<Group> {
    if ds == [] then []
    else
      var n := |ds| - 1;
      SpecGroups(ds[..n], isolated)
      + if Grouped(ds[n], isolated) then [Group(SpecGroupKey(ds[n], n), |ds[n].tests|)] else []
  }

  ghost function AddTests(file: string, tests: seq<string>, m: nat, loads: seq<int>): (r: seq<int>)
    requires m >= 1 && |loads| == m
    ensures |r| == m
  {
    if tests == [] then loads
    else
      var l := AddTests(file, tests[..|tests| - 1], m, loads);
      var s := ShardOf(file, tests[|tests| - 1], m);
      l[s := l[s] + 1]
  }

  /** How many individually hashed tests every shard starts with. */
  ghost function InitialLoads(ds: seq<Discovery>, isolated: set<string>, m: nat): (r: seq<int>)
    requires m >= 1
    ensures |r| == m
  {
    if ds == [] then seq(m, _ => 0)
    else
      var n := |ds| - 1;
      var l := InitialLoads(ds[..n], isolated, m);
      if PerTest(ds[n], isolated) then AddTests(FileOf(ds[n]), ds[n].tests, m, l) else l
  }

  lemma {:induction false} GroupKeysFromSpecs(ds: seq<Discovery>, isolated: set<string>, g: Group)
    requires g in SpecGroups(ds, isolated)
    ensures g.weight >= 0
    ensures exists i :: 0 <= i < |ds| && Grouped(ds[i], isolated) && g.key == SpecGroupKey(ds[i], i)
  {
    var n := |ds| - 1;
    if g in SpecGroups(ds[..n], isolated) {
      GroupKeysFromSpecs(ds[..n], isolated, g);
      var i :| 0 <= i < n && Grouped(ds[..n][i], isolated) && g.key == SpecGroupKey(ds[..n][i], i);
      assert ds[..n][i] == ds[i];
    } else {
      assert Grouped(ds[n], isolated) && g.key == SpecGroupKey(ds[n], n);
    }
  }

  lemma {:induction false} GroupOfSpec(ds: seq<Discovery>, isolated: set<string>, i: nat)
    requires i < |ds| && Grouped(ds[i], isolated)
    ensures Group(SpecGroupKey(ds[i], i), |ds[i].tests|) in SpecGroups(ds, isolated)
  {
    var n := |ds| - 1;
    if i < n {
      GroupOfSpec(ds[..n], isolated, i);
    }
  }

  /** The scheduler accepts every group list a run can build. */
  lemma {:induction false} SpecGroupsAreValid(ds: seq<Discovery>, isolated: set<string>)
    ensures ValidGroups(SpecGroups(ds, isolated))
  {
    if ds != [] {
      var n := |ds| - 1;
      var earlier := SpecGroups(ds[..n], isolated);
      SpecGroupsAreValid(ds[..n], isolated);
      if Grouped(ds[n], isolated) {
        forall g | g in earlier
          ensures g.key != SpecGroupKey(ds[n], n)
        {
          GroupKeysFromSpecs(ds[..n], isolated, g);
          var i :| 0 <= i < n && g.key == SpecGroupKey(ds[..n][i], i);
          SpecGroupKeysDiffer(ds[..n][i], i, ds[n], n);
        }
        ValidAppend(earlier, Group(SpecGroupKey(ds[n], n), |ds[n].tests|));
      }
    }
  }

  ghost predicate NonNegativeLoads(loads: seq<int>) {
    forall i :: 0 <= i < |loads| ==> loads[i] >= 0
  }

  lemma {:induction false} AddTestsNonNegative(file: string, tests: seq<string>, m: nat, loads: seq<int>)
    requires m >= 1 && |loads| == m && NonNegativeLoads(loads)
    ensures NonNegativeLoads(AddTests(file, tests, m, loads))
  {
    if tests != [] {
      AddTestsNonNegative(file, tests[..|tests| - 1], m, loads);
    }
  }

  lemma {:induction false} InitialLoadsNonNegative(ds: seq<Discovery>, isolated: set<string>, m: nat)
    requires m >= 1
    ensures NonNegativeLoads(InitialLoads(ds, isolated, m))
    ensures ValidLoads(m, InitialLoads(ds, isolated, m))
  {
    if ds != [] {
      var n := |ds| - 1;
      InitialLoadsNonNegative(ds[..n], isolated, m);
      if PerTest(ds[n], isolated) {
        AddTestsNonNegative(FileOf(ds[n]), ds[n].tests, m, InitialLoads(ds[..n], isolated, m));
      }
    }
  }

  ghost function Plan(ds: seq<Discovery>, isolated: set<string>, m: nat,
                      keyBefore: (string, string) -> bool): Schedule
    requires m >= 1
  {
    SpecGroupsAreValid(ds, isolated);
    InitialLoadsNonNegative(ds, isolated, m);
    ScheduleOf(SpecGroups(ds, isolated), m, InitialLoads(ds, isolated, m), keyBefore)
  }

  lemma PlanCoversGroups(ds: seq<Discovery>, isolated: set<string>, m: nat,
                         keyBefore: (string, string) -> bool, i: nat)
    requires m >= 1 && i < |ds| && Grouped(ds[i], isolated)
    ensures SpecGroupKey(ds[i], i) in Plan(ds, isolated, m, keyBefore).assignments
    ensures Plan(ds, isolated, m, keyBefore).assignments[SpecGroupKey(ds[i], i)] < m
  {
    SpecGroupsAreValid(ds, isolated);
    InitialLoadsNonNegative(ds, isolated, m);
    GroupOfSpec(ds, isolated, i);
    var j :| 0 <= j < |SpecGroups(ds, isolated)|
          && SpecGroups(ds, isolated)[j] == Group(SpecGroupKey(ds[i], i), |ds[i].tests|);
    LoadsAreTheAssignedWeights(SpecGroups(ds, isolated), m, InitialLoads(ds, isolated, m), keyBefore);
  }

  // ---- units of work --------------------------------------------------------

  ghost function FailureUnits(ds: seq<Discovery>): seq<Unit> {
    if ds == [] then []
    else FailureUnits(ds[..|ds| - 1]) + if ds[|ds| - 1].failed then [FailedDiscovery(|ds| - 1)] else []
  }

  ghost function TestUnits(index: nat, count: nat): (r: seq<Unit>)
    ensures |r| == count
  {
    seq(count, k requires 0 <= k < count => OneTest(index, k))
  }

  ghost function SpecUnits(d: Discovery, index: nat, isolated: set<string>): seq<Unit> {
    if d.failed || d.tests == [] then []
    else if d.spec.file in isolated then TestUnits(index, |d.tests|)
    else [WholeSpec(index)]
  }

  ghost function RunUnits(ds: seq<Discovery>, isolated: set<string>): seq<Unit> {
    if ds == [] then []
    else RunUnits(ds[..|ds| - 1], isolated) + SpecUnits(ds[|ds| - 1], |ds| - 1, isolated)
  }

  /** Everything a run has to do, whatever the number of shards. */
  ghost function AllUnits(ds: seq<Discovery>, isolated: set<string>): seq<Unit> {
    FailureUnits(ds) + RunUnits(ds, isolated)
  }

  /** The shard that does a unit. */
  ghost function Owner(ds: seq<Discovery>, m: nat, plan: map<string, nat>, u: Unit): nat
    requires m >= 1
  {
    match u
    case FailedDiscovery(_) => 0
    case OneTest(i, k) =>
      if i < |ds| && k < |ds[i].tests| then ShardOf(FileOf(ds[i]), ds[i].tests[k], m) else 0
    case WholeSpec(i) =>
      if i < |ds| && SpecGroupKey(ds[i], i) in plan then plan[SpecGroupKey(ds[i], i)] else 0
  }

  ghost function Owned(units: seq<Unit>, ds: seq<Discovery>, m: nat,
                       plan: map<string, nat>, shard: nat): seq<Unit>
    requires m >= 1
  {
    if units == [] then []
    else
      var n := |units| - 1;
      Owned(units[..n], ds, m, plan, shard)
      + if Owner(ds, m, plan, units[n]) == shard then [units[n]] else []
  }

  lemma {:induction false} OwnedAppend(s: seq<Unit>, t: seq<Unit>, ds: seq<Discovery>,
                                       m: nat, plan: map<string, nat>, shard: nat)
    requires m >= 1
    ensures Owned(s + t, ds, m, plan, shard)
         == Owned(s, ds, m, plan, shard) + Owned(t, ds, m, plan, shard)
    decreases |t|
  {
    if t == [] {
      assert s + t == s;
    } else {
      var n := |t| - 1;
      assert (s + t)[..|s + t| - 1] == s + t[..n];
      OwnedAppend(s, t[..n], ds, m, plan, shard);
    }
  }

  lemma OwnedOne(u: Unit, ds: seq<Discovery>, m: nat, plan: map<string, nat>, shard: nat)
    requires m >= 1
    ensures Owned([u], ds, m, plan, shard) == if Owner(ds, m, plan, u) == shard then [u] else []
  {
    assert [u][..0] == [];
  }

  // ---- the run of one shard -------------------------------------------------

  /** The first thing a shard cannot hash, in discovery order. */
  ghost predicate AllHashable(ds: seq<Discovery>, isolated: set<string>) {
    forall d :: d in ds ==> Hashable(d, isolated)
  }

  method RunSharded(ds: seq<Discovery>, isolated: set<string>, shardCount: int, shardIndex: nat,
                    keyBefore: (string, string) -> bool)
      returns (r: Result<seq<Unit>, ShardError>)
    requires shardCount >= 1
    ensures r.Success? <==> AllHashable(ds, isolated)
    ensures r.Success? ==> r.value == ShardUnits(ds, isolated, shardCount, keyBefore, shardIndex)
  {
    SpecGroupsAreValid(ds, isolated);
    InitialLoadsNonNegative(ds, isolated, shardCount);
    var inputs := PlanInputs(ds, isolated, shardCount, shardIndex);
    if inputs.Failure? {
      return Failure(inputs.error);
    }
    var (specGroups, initialLoads, failures) := inputs.value;
    var scheduled := AssignWptSpecGroups(specGroups, shardCount, initialLoads, keyBefore);
    var assignments := scheduled.value.assignments;
    var selected := SelectAll(ds, isolated, shardCount, shardIndex, keyBefore, assignments);
    OwnedFailures(ds, ds, shardCount, assignments, shardIndex);
    OwnedAppend(FailureUnits(ds), RunUnits(ds, isolated), ds, shardCount, assignments, shardIndex);
    return Success(failures + selected);
  }

  /** The first loop: hashed tests counted, the other specs collected as groups, failures reported. */
  method PlanInputs(ds: seq<Discovery>, isolated: set<string>, shardCount: int, shardIndex: nat)
      returns (r: Result<(seq<Group>, seq<int>, seq<Unit>), ShardError>)
    requires shardCount >= 1
    ensures r.Success? <==> AllHashable(ds, isolated)
    ensures r.Success? ==>
              r.value == (SpecGroups(ds, isolated), InitialLoads(ds, isolated, shardCount),
                          if shardIndex == 0 then FailureUnits(ds) else [])
  {
    var initialLoads: seq<int> := seq(shardCount, _ => 0);
    var specGroups: seq<Group> := [];
    var units: seq<Unit> := [];
    for i := 0 to |ds|
      invariant specGroups == SpecGroups(ds[..i], isolated)
      invariant initialLoads == InitialLoads(ds[..i], isolated, shardCount)
      invariant units == if shardIndex == 0 then FailureUnits(ds[..i]) else []
      invariant AllHashable(ds[..i], isolated)
    {
      assert ds[..i + 1][..i] == ds[..i] && ds[..i + 1] == ds[..i] + [ds[i]];
      if ds[i].failed {
        if shardIndex == 0 {
          units := units + [FailedDiscovery(i)];
        }
      } else if ds[i].spec.file in isolated {
        var counted := CountTests(FileOf(ds[i]), ds[i].tests, shardCount, initialLoads);
        if counted.Failure? {
          assert ds[i] in ds;
          return Failure(counted.error);
        }
        initialLoads := counted.value;
      } else {
        specGroups := specGroups + [Group(SpecGroupKey(ds[i], i), |ds[i].tests|)];
      }
    }
    assert ds[..|ds|] == ds;
    return Success((specGroups, initialLoads, units));
  }

  lemma {:induction false} OwnedFailures(fs: seq<Discovery>, ds: seq<Discovery>, m: nat,
                                         plan: map<string, nat>, shard: nat)
    requires m >= 1
    ensures Owned(FailureUnits(fs), ds, m, plan, shard) == if shard == 0 then FailureUnits(fs) else []
  {
    if fs != [] {
      var n := |fs| - 1;
      OwnedFailures(fs[..n], ds, m, plan, shard);
      assert fs[n].failed || FailureUnits(fs) == FailureUnits(fs[..n]);
      OwnedAppend(FailureUnits(fs[..n]), [FailedDiscovery(n)], ds, m, plan, shard);
      OwnedOne(FailedDiscovery(n), ds, m, plan, shard);
    }
  }

  /** The second loop: what this shard runs of every spec, in order. */
  method SelectAll(ds: seq<Discovery>, isolated: set<string>, shardCount: int, shardIndex: nat,
                   ghost keyBefore: (string, string) -> bool, assignments: map<string, nat>)
      returns (units: seq<Unit>)
    requires shardCount >= 1 && AllHashable(ds, isolated)
    requires assignments == Plan(ds, isolated, shardCount, keyBefore).assignments
    ensures units == Owned(RunUnits(ds, isolated), ds, shardCount, assignments, shardIndex)
  {
    units := [];
    for i := 0 to |ds|
      invariant units == Owned(RunUnits(ds[..i], isolated), ds, shardCount, assignments, shardIndex)
    {
      assert ds[..i + 1][..i] == ds[..i];
      assert ds[i] in ds;
      if Grouped(ds[i], isolated) {
        PlanCoversGroups(ds, isolated, shardCount, keyBefore, i);
      }
      OwnedAppend(RunUnits(ds[..i], isolated), SpecUnits(ds[i], i, isolated), ds, shardCount,
                  assignments, shardIndex);
      var more := SelectUnits(ds, i, isolated, shardCount, shardIndex, assignments);
      units := units + more;
    }
    assert ds[..|ds|] == ds;
  }

  /** The counting loop over the tests of one individually hashed file. */
  method CountTests(file: string, tests: seq<string>, shardCount: int, loads: seq<int>)
      returns (r: Result<seq<int>, ShardError>)
    requires shardCount >= 1 && |loads| == shardCount
    ensures r.Success? <==> forall name :: name in tests ==> file != "" && name != ""
    ensures r.Success? ==> r.value == AddTests(file, tests, shardCount, loads)
  {
    var counts := loads;
    for k := 0 to |tests|
      invariant counts == AddTests(file, tests[..k], shardCount, loads)
      invariant forall name :: name in tests[..k] ==> file != "" && name != ""
    {
      var shard := ShardForTest(file, tests[k], shardCount);
      if shard.Failure? {
        assert tests[k] in tests;
        return Failure(shard.error);
      }
      assert tests[..k + 1][..k] == tests[..k] && tests[..k + 1] == tests[..k] + [tests[k]];
      counts := counts[shard.value := counts[shard.value] + 1];
    }
    assert tests[..|tests|] == tests;
    return Success(counts);
  }

  /** What one shard runs of one spec. */
  method SelectUnits(ds: seq<Discovery>, i: nat, isolated: set<string>, shardCount: int, shardIndex: nat,
                     assignments: map<string, nat>)
      returns (units: seq<Unit>)
    requires shardCount >= 1 && i < |ds| && Hashable(ds[i], isolated)
    requires Grouped(ds[i], isolated) ==> SpecGroupKey(ds[i], i) in assignments
    ensures units == Owned(SpecUnits(ds[i], i, isolated), ds, shardCount, assignments, shardIndex)
  {
    units := [];
    if ds[i].failed || ds[i].tests == [] {
      return;
    }
    if ds[i].spec.file in isolated {
      ghost var all := TestUnits(i, |ds[i].tests|);
      for k := 0 to |ds[i].tests|
        invariant units == Owned(all[..k], ds, shardCount, assignments, shardIndex)
      {
        assert ds[i].tests[k] in ds[i].tests;
        var shard := ShardForTest(FileOf(ds[i]), ds[i].tests[k], shardCount);
        assert all[..k + 1][..k] == all[..k] && all[k] == OneTest(i, k);
        if shard.value == shardIndex {
          units := units + [OneTest(i, k)];
        }
      }
      assert all[..|ds[i].tests|] == all;
      return;
    }
    assert [WholeSpec(i)][..0] == [];
    if assignments[SpecGroupKey(ds[i], i)] == shardIndex {
      units := [WholeSpec(i)];
    }
  }

  // ---- the partition --------------------------------------------------------

  /** The units one shard runs: the value RunSharded returns. */
  ghost function ShardUnits(ds: seq<Discovery>, isolated: set<string>, m: nat,
                            keyBefore: (string, string) -> bool, shard: nat): seq<Unit>
    requires m >= 1
  {
    Owned(AllUnits(ds, isolated), ds, m, Plan(ds, isolated, m, keyBefore).assignments, shard)
  }

  lemma {:induction false} OwnedMembers(units: seq<Unit>, ds: seq<Discovery>, m: nat,
                                        plan: map<string, nat>, shard: nat, u: Unit)
    requires m >= 1
    ensures u in Owned(units, ds, m, plan, shard)
       <==> u in units && Owner(ds, m, plan, u) == shard
  {
    if units != [] {
      var n := |units| - 1;
      OwnedMembers(units[..n], ds, m, plan, shard, u);
      assert units == units[..n] + [units[n]];
    }
  }

  lemma {:induction false} UnitOfSpec(ds: seq<Discovery>, isolated: set<string>, u: Unit)
    requires u in RunUnits(ds, isolated)
    ensures u.index < |ds| && u in SpecUnits(ds[u.index], u.index, isolated)
  {
    var n := |ds| - 1;
    if u in RunUnits(ds[..n], isolated) {
      UnitOfSpec(ds[..n], isolated, u);
    }
  }

  lemma {:induction false} FailureUnitShape(ds: seq<Discovery>, u: Unit)
    requires u in FailureUnits(ds)
    ensures u.FailedDiscovery? && u.index < |ds| && ds[u.index].failed
  {
    var n := |ds| - 1;
    if u in FailureUnits(ds[..n]) {
      FailureUnitShape(ds[..n], u);
    }
  }

  lemma {:induction false} FailureIsAUnit(ds: seq<Discovery>, i: nat)
    requires i < |ds| && ds[i].failed
    ensures FailedDiscovery(i) in FailureUnits(ds)
  {
    if i < |ds| - 1 {
      FailureIsAUnit(ds[..|ds| - 1], i);
    }
  }

  lemma {:induction false} SpecUnitIsAUnit(ds: seq<Discovery>, isolated: set<string>, i: nat, u: Unit)
    requires i < |ds| && u in SpecUnits(ds[i], i, isolated)
    ensures u in RunUnits(ds, isolated)
  {
    if i < |ds| - 1 {
      SpecUnitIsAUnit(ds[..|ds| - 1], isolated, i, u);
    }
  }

  /** What a run consists of: failed discoveries, tests of isolated files, and other specs that have tests. */
  lemma UnitsAreExactly(ds: seq<Discovery>, isolated: set<string>, u: Unit)
    ensures u in AllUnits(ds, isolated) <==>
              && u.index < |ds|
              && match u
                 case FailedDiscovery(i) => ds[i].failed
                 case OneTest(i, k) => !ds[i].failed && ds[i].spec.file in isolated && k < |ds[i].tests|
                 case WholeSpec(i) => !ds[i].failed && ds[i].spec.file !in isolated && ds[i].tests != []
  {
    if u in FailureUnits(ds) {
      FailureUnitShape(ds, u);
    } else if u in RunUnits(ds, isolated) {
      UnitOfSpec(ds, isolated, u);
    } else if u.index < |ds| {
      if ds[u.index].failed {
        FailureIsAUnit(ds, u.index);
      } else if u in SpecUnits(ds[u.index], u.index, isolated) {
        SpecUnitIsAUnit(ds, isolated, u.index, u);
      } else if u.OneTest? && u.test < |ds[u.index].tests| {
        assert TestUnits(u.index, |ds[u.index].tests|)[u.test] == u;
      }
    }
  }

  lemma OwnerInRange(ds: seq<Discovery>, isolated: set<string>, m: nat,
                     keyBefore: (string, string) -> bool, u: Unit)
    requires m >= 1 && u in AllUnits(ds, isolated)
    ensures Owner(ds, m, Plan(ds, isolated, m, keyBefore).assignments, u) < m
  {
    if u in FailureUnits(ds) {
      FailureUnitShape(ds, u);
    } else {
      UnitOfSpec(ds, isolated, u);
      if u.WholeSpec? {
        PlanCoversGroups(ds, isolated, m, keyBefore, u.index);
      }
    }
  }

  /** Every unit of the run is done by exactly one shard, and no shard does anything else. */
  lemma ShardsPartitionTheRun(ds: seq<Discovery>, isolated: set<string>, m: nat,
                              keyBefore: (string, string) -> bool, u: Unit)
    requires m >= 1
    ensures u in AllUnits(ds, isolated) <==>
            exists s :: 0 <= s < m && u in ShardUnits(ds, isolated, m, keyBefore, s)
    ensures forall s, t ::
              (u in ShardUnits(ds, isolated, m, keyBefore, s) && u in ShardUnits(ds, isolated, m, keyBefore, t))
              ==> s == t
  {
    var plan := Plan(ds, isolated, m, keyBefore).assignments;
    forall s: nat
      ensures u in ShardUnits(ds, isolated, m, keyBefore, s)
         <==> u in AllUnits(ds, isolated) && Owner(ds, m, plan, u) == s
    {
      OwnedMembers(AllUnits(ds, isolated), ds, m, plan, s, u);
    }
    if u in AllUnits(ds, isolated) {
      OwnerInRange(ds, isolated, m, keyBefore, u);
      assert u in ShardUnits(ds, isolated, m, keyBefore, Owner(ds, m, plan, u));
    }
  }

  /** A unit stands for these tests of the selection. */
  ghost predicate Runs(ds: seq<Discovery>, u: Unit, i: nat, k: nat) {
    i < |ds| && k < |ds[i].tests| && (u == OneTest(i, k) || u == WholeSpec(i))
  }

  ghost predicate Selected(ds: seq<Discovery>, i: nat, k: nat) {
    i < |ds| && k < |ds[i].tests| && !ds[i].failed
  }

  /** The unit that runs a selected test. */
  ghost function UnitFor(ds: seq<Discovery>, isolated: set<string>, i: nat, k: nat): Unit
    requires i < |ds|
  {
    if ds[i].spec.file in isolated then OneTest(i, k) else WholeSpec(i)
  }

  lemma SelectedTestIsRun(ds: seq<Discovery>, isolated: set<string>, i: nat, k: nat)
    requires Selected(ds, i, k)
    ensures UnitFor(ds, isolated, i, k) in AllUnits(ds, isolated) && Runs(ds, UnitFor(ds, isolated, i, k), i, k)
  {
    var u := UnitFor(ds, isolated, i, k);
    assert TestUnits(i, |ds[i].tests|)[k] == OneTest(i, k);
    assert u in SpecUnits(ds[i], i, isolated);
    SpecUnitIsAUnit(ds, isolated, i, u);
  }

  lemma RunTestIsSelected(ds: seq<Discovery>, isolated: set<string>, u: Unit, i: nat, k: nat)
    requires u in AllUnits(ds, isolated) && Runs(ds, u, i, k)
    ensures Selected(ds, i, k) && u == UnitFor(ds, isolated, i, k)
  {
    if u in FailureUnits(ds) {
      FailureUnitShape(ds, u);
    } else {
      UnitOfSpec(ds, isolated, u);
    }
  }

  /** Shard s runs test k of spec i. */
  ghost predicate ShardRuns(ds: seq<Discovery>, isolated: set<string>, m: nat,
                            keyBefore: (string, string) -> bool, s: nat, i: nat, k: nat)
    requires m >= 1
  {
    exists u :: u in ShardUnits(ds, isolated, m, keyBefore, s) && Runs(ds, u, i, k)
  }

  /** Every selected test is run by exactly one shard, and an unselected test by none. */
  lemma EveryTestRunsOnOneShard(ds: seq<Discovery>, isolated: set<string>, m: nat,
                                keyBefore: (string, string) -> bool, i: nat, k: nat)
    requires m >= 1
    ensures Selected(ds, i, k) <==> exists s :: 0 <= s < m && ShardRuns(ds, isolated, m, keyBefore, s, i, k)
    ensures forall s, t ::
              (ShardRuns(ds, isolated, m, keyBefore, s, i, k) && ShardRuns(ds, isolated, m, keyBefore, t, i, k))
              ==> s == t
  {
    if Selected(ds, i, k) {
      var u := UnitFor(ds, isolated, i, k);
      SelectedTestIsRun(ds, isolated, i, k);
      ShardsPartitionTheRun(ds, isolated, m, keyBefore, u);
      var s :| 0 <= s < m && u in ShardUnits(ds, isolated, m, keyBefore, s);
      assert ShardRuns(ds, isolated, m, keyBefore, s, i, k);
    }
    forall s: nat | ShardRuns(ds, isolated, m, keyBefore, s, i, k)
      ensures Selected(ds, i, k) && UnitFor(ds, isolated, i, k) in ShardUnits(ds, isolated, m, keyBefore, s)
    {
      var u :| u in ShardUnits(ds, isolated, m, keyBefore, s) && Runs(ds, u, i, k);
      OwnedMembers(AllUnits(ds, isolated), ds, m, Plan(ds, isolated, m, keyBefore).assignments, s, u);
      RunTestIsSelected(ds, isolated, u, i, k);
    }
    if Selected(ds, i, k) {
      ShardsPartitionTheRun(ds, isolated, m, keyBefore, UnitFor(ds, isolated, i, k));
    }
  }

  /** A test of an isolated file goes to the shard its hash gives, the search part of its URL included. */
  lemma IsolatedTestGoesToItsHash(ds: seq<Discovery>, isolated: set<string>, m: nat,
                                  keyBefore: (string, string) -> bool, i: nat, k: nat)
    requires m >= 1 && Selected(ds, i, k) && ds[i].spec.file in isolated
    ensures ShardRuns(ds, isolated, m, keyBefore, ShardOf(ds[i].spec.file + ds[i].spec.search, ds[i].tests[k], m), i, k)
  {
    var plan := Plan(ds, isolated, m, keyBefore).assignments;
    var u := OneTest(i, k);
    SelectedTestIsRun(ds, isolated, i, k);
    OwnedMembers(AllUnits(ds, isolated), ds, m, plan, Owner(ds, m, plan, u), u);
    assert Runs(ds, u, i, k);
  }

  // ---- the merged report ----------------------------------------------------

  ghost function ResultsOf(units: seq<Unit>, outcome: Unit -> seq<TestResult>): seq<TestResult> {
    if units == [] then [] else ResultsOf(units[..|units| - 1], outcome) + outcome(units[|units| - 1])
  }

  ghost function SummaryOf(results: seq<TestResult>): Summary { Summary(|results|, results) }

  lemma {:induction false} ResultsAppend(s: seq<Unit>, t: seq<Unit>, outcome: Unit -> seq<TestResult>)
    ensures ResultsOf(s + t, outcome) == ResultsOf(s, outcome) + ResultsOf(t, outcome)
    decreases |t|
  {
    if t == [] {
      assert s + t == s;
    } else {
      assert (s + t)[..|s + t| - 1] == s + t[..|t| - 1];
      ResultsAppend(s, t[..|t| - 1], outcome);
    }
  }

  lemma OwnedLast(units: seq<Unit>, ds: seq<Discovery>, m: nat, plan: map<string, nat>,
                  shard: nat, outcome: Unit -> seq<TestResult>, u: Unit)
    requires m >= 1
    ensures ResultsOf(Owned(units + [u], ds, m, plan, shard), outcome)
         == ResultsOf(Owned(units, ds, m, plan, shard), outcome)
            + if Owner(ds, m, plan, u) == shard then outcome(u) else []
  {
    OwnedAppend(units, [u], ds, m, plan, shard);
    OwnedOne(u, ds, m, plan, shard);
    ResultsAppend(Owned(units, ds, m, plan, shard), Owned([u], ds, m, plan, shard), outcome);
    assert [u][..0] == [];
  }

  /** What every shard records, one sequence a shard. */
  ghost function ShardResults(ds: seq<Discovery>, m: nat, plan: map<string, nat>, units: seq<Unit>,
                              outcome: Unit -> seq<TestResult>): (r: seq<seq<TestResult>>)
    requires m >= 1
    ensures |r| == m
  {
    seq(m, s requires 0 <= s < m => ResultsOf(Owned(units, ds, m, plan, s), outcome))
  }

  /** The artifacts the shards write. */
  ghost function Artifacts(results: seq<seq<TestResult>>): (a: seq<Summary>)
    ensures |a| == |results|
  {
    if results == [] then [] else Artifacts(results[..|results| - 1]) + [SummaryOf(results[|results| - 1])]
  }

  ghost function Flatten(results: seq<seq<TestResult>>): seq<TestResult> {
    if results == [] then [] else Flatten(results[..|results| - 1]) + results[|results| - 1]
  }

  lemma {:induction false} ArtifactsFlatten(results: seq<seq<TestResult>>)
    ensures AllResults(Artifacts(results)) == Flatten(results)
    ensures TotalsMatch(Artifacts(results))
  {
    if results != [] {
      var n := |results| - 1;
      ArtifactsFlatten(results[..n]);
      assert Artifacts(results)[..n] == Artifacts(results[..n]);
    }
  }

  /** Results added to one shard are added to the whole. */
  lemma {:induction false} FlattenUpdate(results: seq<seq<TestResult>>, o: nat, x: seq<TestResult>)
    requires o < |results|
    ensures multiset(Flatten(results[o := results[o] + x])) == multiset(Flatten(results)) + multiset(x)
  {
    var n := |results| - 1;
    var updated := results[o := results[o] + x];
    if o == n {
      assert updated[..n] == results[..n];
    } else {
      FlattenUpdate(results[..n], o, x);
      assert updated[..n] == results[..n][o := results[..n][o] + x];
    }
  }

  lemma {:induction false} FlattenEmpty(results: seq<seq<TestResult>>)
    requires forall s :: 0 <= s < |results| ==> results[s] == []
    ensures Flatten(results) == []
  {
    if results != [] {
      FlattenEmpty(results[..|results| - 1]);
    }
  }

  /** The shards together record the results of all units, each once. */
  lemma {:induction false} ShardsRecordEverything(ds: seq<Discovery>, m: nat, plan: map<string, nat>,
                                                  units: seq<Unit>, outcome: Unit -> seq<TestResult>)
    requires m >= 1 && forall u :: u in units ==> Owner(ds, m, plan, u) < m
    ensures multiset(Flatten(ShardResults(ds, m, plan, units, outcome))) == multiset(ResultsOf(units, outcome))
  {
    var results := ShardResults(ds, m, plan, units, outcome);
    if units == [] {
      FlattenEmpty(results);
    } else {
      var earlier, u := units[..|units| - 1], units[|units| - 1];
      assert units == earlier + [u] && u in units;
      ShardsRecordEverything(ds, m, plan, earlier, outcome);
      var before, o := ShardResults(ds, m, plan, earlier, outcome), Owner(ds, m, plan, u);
      forall s | 0 <= s < m
        ensures results[s] == before[o := before[o] + outcome(u)][s]
      {
        OwnedLast(earlier, ds, m, plan, s, outcome, u);
      }
      assert results == before[o := before[o] + outcome(u)];
      FlattenUpdate(before, o, outcome(u));
    }
  }

  /**
    If the results of the whole run are named and have distinct identities, merging the
    artifacts of all shards succeeds, and the merged report is those results, sorted,
    with their totals.
   */
  lemma MergedReportIsTheWholeRun(ds: seq<Discovery>, isolated: set<string>, m: nat,
                                  keyBefore: (string, string) -> bool, compare: (string, string) -> int,
                                  outcome: Unit -> seq<TestResult>)
    requires m >= 1 && TotalPreorder(compare)
    requires GoodResults(ResultsOf(AllUnits(ds, isolated), outcome))
    ensures var all := ResultsOf(AllUnits(ds, isolated), outcome);
            var plan := Plan(ds, isolated, m, keyBefore).assignments;
            var artifacts := Artifacts(ShardResults(ds, m, plan, AllUnits(ds, isolated), outcome));
            var merged := SortResults(AllResults(artifacts), compare);
            && Mergeable(artifacts)
            && multiset(merged) == multiset(all) && Ordered(merged, compare)
            && |merged| == |all|
            && CountStatus(merged, "PASS") == CountStatus(all, "PASS")
            && CountStatus(merged, "FAIL") == CountStatus(all, "FAIL")
  {
    var units := AllUnits(ds, isolated);
    var plan := Plan(ds, isolated, m, keyBefore).assignments;
    forall u | u in units
      ensures Owner(ds, m, plan, u) < m
    {
      OwnerInRange(ds, isolated, m, keyBefore, u);
    }
    var all := ResultsOf(units, outcome);
    var artifacts := Artifacts(ShardResults(ds, m, plan, units, outcome));
    ShardsRecordEverything(ds, m, plan, units, outcome);
    ArtifactsFlatten(ShardResults(ds, m, plan, units, outcome));
    DistinctPermutes(all, AllResults(artifacts), IdentityOf);
    forall r | r in AllResults(artifacts)
      ensures Named(r)
    {
      assert r in multiset(all);
    }
    var merged := SortResults(AllResults(artifacts), compare);
    SortOrders(AllResults(artifacts), compare);
    assert |merged| == |multiset(merged)| == |multiset(all)| == |all|;
    CountPermutes(merged, all, "PASS");
    CountPermutes(merged, all, "FAIL");
  }

  // ---- the loads the scheduler balances are the tests the shards run --------

  /** How many tests a unit runs. */
  ghost function TestCount(ds: seq<Discovery>, u: Unit): nat {
    match u
    case FailedDiscovery(_) => 0
    case OneTest(_, _) => 1
    case WholeSpec(i) => if i < |ds| then |ds[i].tests| else 0
  }

  ghost function TestsRun(ds: seq<Discovery>, units: seq<Unit>): nat {
    if units == [] then 0 else TestsRun(ds, units[..|units| - 1]) + TestCount(ds, units[|units| - 1])
  }

  lemma {:induction false} TestsRunAppend(ds: seq<Discovery>, s: seq<Unit>, t: seq<Unit>)
    ensures TestsRun(ds, s + t) == TestsRun(ds, s) + TestsRun(ds, t)
    decreases |t|
  {
    if t == [] {
      assert s + t == s;
    } else {
      assert (s + t)[..|s + t| - 1] == s + t[..|t| - 1];
      TestsRunAppend(ds, s, t[..|t| - 1]);
    }
  }

  lemma TestsRunOne(ds: seq<Discovery>, u: Unit)
    ensures TestsRun(ds, [u]) == TestCount(ds, u) && TestsRun(ds, []) == 0
  {
    assert [u][..0] == [];
  }

  lemma {:induction false} OwnedTestsCounted(ds: seq<Discovery>, i: nat, c: nat, m: nat,
                                             plan: map<string, nat>, shard: nat, loads: seq<int>)
    requires m >= 1 && i < |ds| && c <= |ds[i].tests| && shard < m && |loads| == m
    ensures AddTests(FileOf(ds[i]), ds[i].tests[..c], m, loads)[shard]
         == loads[shard] + TestsRun(ds, Owned(TestUnits(i, c), ds, m, plan, shard))
  {
    if c > 0 {
      OwnedTestsCounted(ds, i, c - 1, m, plan, shard, loads);
      assert TestUnits(i, c) == TestUnits(i, c - 1) + [OneTest(i, c - 1)];
      OneUnitMore(ds, TestUnits(i, c - 1), OneTest(i, c - 1), m, plan, shard);
      assert ds[i].tests[..c][..c - 1] == ds[i].tests[..c - 1];
    }
  }

  lemma OneUnitMore(ds: seq<Discovery>, units: seq<Unit>, u: Unit, m: nat, plan: map<string, nat>, shard: nat)
    requires m >= 1
    ensures TestsRun(ds, Owned(units + [u], ds, m, plan, shard))
         == TestsRun(ds, Owned(units, ds, m, plan, shard))
            + if Owner(ds, m, plan, u) == shard then TestCount(ds, u) else 0
  {
    OwnedAppend(units, [u], ds, m, plan, shard);
    OwnedOne(u, ds, m, plan, shard);
    TestsRunAppend(ds, Owned(units, ds, m, plan, shard), Owned([u], ds, m, plan, shard));
    TestsRunOne(ds, u);
  }

  /** What one spec adds to a shard's initial load and planned weight is what the shard runs of it. */
  lemma SpecLoadCounted(ds: seq<Discovery>, i: nat, isolated: set<string>, m: nat,
                        plan: map<string, nat>, shard: nat, loads: seq<int>)
    requires m >= 1 && i < |ds| && shard < m && |loads| == m
    requires Grouped(ds[i], isolated) ==> SpecGroupKey(ds[i], i) in plan
    ensures TestsRun(ds, Owned(SpecUnits(ds[i], i, isolated), ds, m, plan, shard))
         == if PerTest(ds[i], isolated) then AddTests(FileOf(ds[i]), ds[i].tests, m, loads)[shard] - loads[shard]
            else if Grouped(ds[i], isolated) && plan[SpecGroupKey(ds[i], i)] == shard then |ds[i].tests|
            else 0
  {
    TestsRunOne(ds, WholeSpec(i));
    if PerTest(ds[i], isolated) {
      OwnedTestsCounted(ds, i, |ds[i].tests|, m, plan, shard, loads);
      assert ds[i].tests[..|ds[i].tests|] == ds[i].tests;
      assert TestUnits(i, 0) == [];
    } else if Grouped(ds[i], isolated) {
      OwnedOne(WholeSpec(i), ds, m, plan, shard);
    }
  }

  lemma {:induction false} LoadsCountTests(ds: seq<Discovery>, n: nat, isolated: set<string>, m: nat,
                                           plan: map<string, nat>, shard: nat)
    requires m >= 1 && n <= |ds| && shard < m
    requires PlanFor(SpecGroups(ds[..n], isolated), m, plan)
    ensures InitialLoads(ds[..n], isolated, m)[shard] + PlannedWeight(SpecGroups(ds[..n], isolated), plan, m, shard)
         == TestsRun(ds, Owned(RunUnits(ds[..n], isolated), ds, m, plan, shard))
  {
    if n > 0 {
      var i := n - 1;
      assert ds[..n][..i] == ds[..i];
      var earlier := SpecGroups(ds[..i], isolated);
      if Grouped(ds[i], isolated) {
        PlannedAppend(earlier, Group(SpecGroupKey(ds[i], i), |ds[i].tests|), plan, m, shard);
      } else {
        assert SpecGroups(ds[..n], isolated) == earlier;
      }
      LoadsCountTests(ds, i, isolated, m, plan, shard);
      SpecLoadCounted(ds, i, isolated, m, plan, shard, InitialLoads(ds[..i], isolated, m));
      OwnedAppend(RunUnits(ds[..i], isolated), SpecUnits(ds[i], i, isolated), ds, m, plan, shard);
      TestsRunAppend(ds, Owned(RunUnits(ds[..i], isolated), ds, m, plan, shard),
                     Owned(SpecUnits(ds[i], i, isolated), ds, m, plan, shard));
    }
  }

  /** The load the scheduler balances is the number of tests the shard really runs. */
  lemma ShardRunsItsLoad(ds: seq<Discovery>, isolated: set<string>, m: nat,
                         keyBefore: (string, string) -> bool, shard: nat)
    requires m >= 1 && shard < m
    ensures |Plan(ds, isolated, m, keyBefore).loads| == m
    ensures TestsRun(ds, ShardUnits(ds, isolated, m, keyBefore, shard)) == Plan(ds, isolated, m, keyBefore).loads[shard]
  {
    var plan := Plan(ds, isolated, m, keyBefore);
    var groups, loads := SpecGroups(ds, isolated), InitialLoads(ds, isolated, m);
    SpecGroupsAreValid(ds, isolated);
    InitialLoadsNonNegative(ds, isolated, m);
    LoadsAreTheAssignedWeights(groups, m, loads, keyBefore);
    assert ds[..|ds|] == ds;
    LoadsCountTests(ds, |ds|, isolated, m, plan.assignments, shard);
    OwnedAppend(FailureUnits(ds), RunUnits(ds, isolated), ds, m, plan.assignments, shard);
    OwnedFailures(ds, ds, m, plan.assignments, shard);
    FailuresRunNoTests(ds, ds);
    TestsRunAppend(ds, Owned(FailureUnits(ds), ds, m, plan.assignments, shard),
                   Owned(RunUnits(ds, isolated), ds, m, plan.assignments, shard));
  }

  lemma {:induction false} FailuresRunNoTests(ds: seq<Discovery>, fs: seq<Discovery>)
    ensures TestsRun(ds, FailureUnits(fs)) == 0
  {
    if fs != [] {
      var n := |fs| - 1;
      FailuresRunNoTests(ds, fs[..n]);
      assert fs[n].failed || FailureUnits(fs) == FailureUnits(fs[..n]);
      TestsRunAppend(ds, FailureUnits(fs[..n]), [FailedDiscovery(n)]);
      TestsRunOne(ds, FailedDiscovery(n));
    }
  }
}
