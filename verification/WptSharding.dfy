/** The pure part of the sharded WPT runner: identities, group scheduling, merging. */
module WptSharding {
  import opened Wrappers
  import opened ListScheduling
  import opened Permutations

  datatype ShardError =
    | EmptyFile
    | EmptyName
    | BadShardCount
    | BadInitialLoads
    | BadGroup
    | DuplicateGroup(key: string)
    | NoSummaries
    | TotalMismatch(shard: nat)
    | DuplicateResult(file: string, name: string)

  // ---- identities ---------------------------------------------------------

  const NUL := '\0'

  function Identity(file: string, name: string): string { file + [NUL] + name }

  function TestIdentity(file: string, name: string): (r: Result<string, ShardError>)
    ensures file == "" ==> r == Failure(EmptyFile)
    ensures file != "" && name == "" ==> r == Failure(EmptyName)
    ensures file != "" && name != "" ==> r == Success(Identity(file, name))
  {
    if file == "" then Failure(EmptyFile)
    else if name == "" then Failure(EmptyName)
    else Success(Identity(file, name))
  }

  /** The shorter file ends where the longer one holds a NUL. */
  ghost predicate SplitsAtNul(f: string, n: string, f': string, n': string) {
    exists p: string :: f' == f + [NUL] + p && n == p + [NUL] + n'
  }

  /** Exactly when two different tests get one identity: a file name must hold a NUL. */
  lemma IdentityCollision(f: string, n: string, f': string, n': string)
    ensures Identity(f, n) == Identity(f', n') <==>
            (f == f' && n == n') || SplitsAtNul(f, n, f', n') || SplitsAtNul(f', n', f, n)
  {
    if Identity(f, n) == Identity(f', n') {
      if |f| == |f'| {
        SameIdentitySameSplit(f, n, f', n');
      } else if |f| < |f'| {
        CollisionSplits(f, n, f', n');
      } else {
        CollisionSplits(f', n', f, n);
      }
    }
    if SplitsAtNul(f, n, f', n') { SplitCollides(f, n, f', n'); }
    if SplitsAtNul(f', n', f, n) { SplitCollides(f', n', f, n); }
  }

  lemma SameIdentitySameSplit(f: string, n: string, f': string, n': string)
    requires Identity(f, n) == Identity(f', n') && |f| == |f'|
    ensures f == f' && n == n'
  {
    assert f == Identity(f, n)[..|f|] == Identity(f', n')[..|f'|] == f';
    assert n == Identity(f, n)[|f| + 1..] == Identity(f', n')[|f'| + 1..] == n';
  }

  lemma CollisionSplits(f: string, n: string, f': string, n': string)
    requires Identity(f, n) == Identity(f', n') && |f| < |f'|
    ensures SplitsAtNul(f, n, f', n')
  {
    var p := f'[|f| + 1..];
    var id, id' := Identity(f, n), Identity(f', n');
    assert f'[..|f|] == id'[..|f|] == f && f'[|f|] == id'[|f|] == NUL;
    assert f' == f + [NUL] + p;
    assert n == id[|f| + 1..] == id'[|f| + 1..] == p + [NUL] + n';
  }

  lemma SplitCollides(f: string, n: string, f': string, n': string)
    requires SplitsAtNul(f, n, f', n')
    ensures Identity(f, n) == Identity(f', n')
  {
    var p: string :| f' == f + [NUL] + p && n == p + [NUL] + n';
    assert f + [NUL] + (p + [NUL] + n') == (f + [NUL] + p) + [NUL] + n';
  }

  /** Without NULs in file names an identity determines its test. */
  lemma IdentityInjective(f: string, n: string, f': string, n': string)
    requires NUL !in f && NUL !in f'
    ensures Identity(f, n) == Identity(f', n') <==> f == f' && n == n'
  {
    IdentityCollision(f, n, f', n');
    SplitNeedsNul(f, n, f', n');
    SplitNeedsNul(f', n', f, n);
  }

  lemma SplitNeedsNul(f: string, n: string, f': string, n': string)
    ensures SplitsAtNul(f, n, f', n') ==> NUL in f'
  {
    if SplitsAtNul(f, n, f', n') {
      var p: string :| f' == f + [NUL] + p;
      assert f'[|f|] == NUL;
    }
  }

  // ---- FNV-1a over the UTF-16 code units of the identity -------------------

  /** One round; a character stands for the code unit it has in the low 16 bits. */
  function HashRound(hash: bv32, c: char): bv32 {
    (hash ^ ((c as int % 0x1_0000) as bv32)) * 0x0100_0193
  }

  function Hash(s: string): bv32 {
    if s == "" then 0x811c_9dc5 else HashRound(Hash(s[..|s| - 1]), s[|s| - 1])
  }

  function ShardOf(file: string, name: string, shardCount: nat): (shard: nat)
    requires shardCount >= 1
    ensures shard < shardCount
  {
    (Hash(Identity(file, name)) as int) % shardCount
  }

  method ShardForTest(file: string, name: string, shardCount: int) returns (r: Result<nat, ShardError>)
    ensures shardCount < 1 ==> r == Failure(BadShardCount)
    ensures shardCount >= 1 ==>
              r == if file == "" then Failure(EmptyFile)
                   else if name == "" then Failure(EmptyName)
                   else Success(ShardOf(file, name, shardCount))
  {
    if shardCount < 1 {
      return Failure(BadShardCount);
    }
    var identity := TestIdentity(file, name);
    if identity.Failure? {
      return Failure(identity.error);
    }
    var hash: bv32 := 0x811c_9dc5;
    for i := 0 to |identity.value|
      invariant hash == Hash(identity.value[..i])
    {
      assert identity.value[..i + 1][..i] == identity.value[..i];
      hash := HashRound(hash, identity.value[i]);
    }
    assert identity.value[..|identity.value|] == identity.value;
    return Success((hash as int) % shardCount);
  }

  // ---- group scheduling ---------------------------------------------------

  datatype Group = Group(key: string, weight: int)

  datatype Schedule = Schedule(assignments: map<string, nat>, loads: seq<nat>)

  ghost function Keys(groups: seq<Group>): set<string> { set g | g in groups :: g.key }

  ghost predicate ValidGroups(groups: seq<Group>) {
    && (forall g :: g in groups ==> g.key != "" && g.weight >= 0)
    && DistinctKeys(groups)
  }

  ghost predicate ValidLoads(shardCount: int, loads: seq<int>) {
    |loads| <= shardCount && forall x :: x in loads ==> x >= 0
  }

  /** The first complaint, in input order. */
  ghost function FirstBadGroup(groups: seq<Group>): Option<ShardError> {
    if groups == [] then None
    else
      var n := |groups| - 1;
      var earlier := FirstBadGroup(groups[..n]);
      if earlier.Some? then earlier
      else if groups[n].key == "" || groups[n].weight < 0 then Some(BadGroup)
      else if groups[n].key in Keys(groups[..n]) then Some(DuplicateGroup(groups[n].key))
      else None
  }

  lemma ValidAppend(groups: seq<Group>, g: Group)
    ensures ValidGroups(groups + [g])
       <==> ValidGroups(groups) && g.key != "" && g.weight >= 0 && g.key !in Keys(groups)
  {
    var r := groups + [g];
    assert r[|groups|] == g && forall i :: 0 <= i < |groups| ==> r[i] == groups[i];
    if ValidGroups(r) {
      forall h | h in groups
        ensures h in r && h.key != g.key
      {
        var i :| 0 <= i < |groups| && groups[i] == h;
        assert r[i].key != r[|groups|].key;
      }
    }
    assert forall i :: 0 <= i < |groups| ==> groups[i] in groups;
  }

  lemma {:induction false} NoComplaintMeansValid(groups: seq<Group>)
    ensures FirstBadGroup(groups).None? <==> ValidGroups(groups)
  {
    if groups != [] {
      var n := |groups| - 1;
      NoComplaintMeansValid(groups[..n]);
      assert groups == groups[..n] + [groups[n]];
      ValidAppend(groups[..n], groups[n]);
    }
  }

  /** Initial loads padded with zeros up to the shard count. */
  ghost function Padded(shardCount: int, loads: seq<int>): (p: seq<nat>)
    requires ValidLoads(shardCount, loads)
    ensures |p| == shardCount
  {
    seq(shardCount, i requires 0 <= i < shardCount => InitialLoad(shardCount, loads, i))
  }

  ghost function InitialLoad(shardCount: int, loads: seq<int>, i: nat): nat
    requires ValidLoads(shardCount, loads)
  {
    if i < |loads| then assert loads[i] in loads; loads[i] else 0
  }

  /** The comparator of the sort: heavier first, then by the given order of keys. */
  predicate Before(x: Group, y: Group, keyBefore: (string, string) -> bool) {
    x.weight > y.weight || (x.weight == y.weight && keyBefore(x.key, y.key))
  }

  function Insert(s: seq<Group>, x: Group, keyBefore: (string, string) -> bool): (r: seq<Group>)
    ensures |r| == |s| + 1
    ensures multiset(r) == multiset(s) + multiset{x}
  {
    if s == [] || !Before(x, s[|s| - 1], keyBefore) then s + [x]
    else
      assert s == s[..|s| - 1] + [s[|s| - 1]];
      Insert(s[..|s| - 1], x, keyBefore) + [s[|s| - 1]]
  }

  /** Stable sort by Before, whatever the key order is. */
  function Sorted(s: seq<Group>, keyBefore: (string, string) -> bool): (r: seq<Group>)
    ensures |r| == |s|
    ensures multiset(r) == multiset(s)
  {
    if s == [] then []
    else
      assert s == s[..|s| - 1] + [s[|s| - 1]];
      Insert(Sorted(s[..|s| - 1], keyBefore), s[|s| - 1], keyBefore)
  }

  ghost predicate NonNegative(groups: seq<Group>) {
    forall i :: 0 <= i < |groups| ==> groups[i].weight >= 0
  }

  ghost function Weights(groups: seq<Group>): (v: seq<nat>)
    requires NonNegative(groups)
    ensures |v| == |groups|
  {
    seq(|groups|, i requires 0 <= i < |groups| => groups[i].weight)
  }

  ghost predicate HeaviestFirst(groups: seq<Group>) {
    forall i, j :: 0 <= i < j < |groups| ==> groups[i].weight >= groups[j].weight
  }

  lemma {:induction false} InsertAtLeast(s: seq<Group>, x: Group, keyBefore: (string, string) -> bool, c: int)
    requires x.weight >= c && forall i :: 0 <= i < |s| ==> s[i].weight >= c
    ensures forall i :: 0 <= i <= |s| ==> Insert(s, x, keyBefore)[i].weight >= c
  {
    if s != [] {
      InsertAtLeast(s[..|s| - 1], x, keyBefore, c);
    }
  }

  lemma {:induction false} InsertKeepsOrder(s: seq<Group>, x: Group, keyBefore: (string, string) -> bool)
    requires HeaviestFirst(s)
    ensures HeaviestFirst(Insert(s, x, keyBefore))
  {
    if s == [] {
    } else if Before(x, s[|s| - 1], keyBefore) {
      var n := |s| - 1;
      InsertKeepsOrder(s[..n], x, keyBefore);
      InsertAtLeast(s[..n], x, keyBefore, s[n].weight);
      LightestLast(Insert(s[..n], x, keyBefore), s[n]);
    } else {
      LightestLast(s, x);
    }
  }

  lemma LightestLast(s: seq<Group>, x: Group)
    requires HeaviestFirst(s) && forall i :: 0 <= i < |s| ==> s[i].weight >= x.weight
    ensures HeaviestFirst(s + [x])
  {
  }

  /** The sort orders by weight whatever the order of keys is. */
  lemma {:induction false} SortedHeaviestFirst(s: seq<Group>, keyBefore: (string, string) -> bool)
    ensures HeaviestFirst(Sorted(s, keyBefore))
  {
    if s != [] {
      SortedHeaviestFirst(s[..|s| - 1], keyBefore);
      InsertKeepsOrder(Sorted(s[..|s| - 1], keyBefore), s[|s| - 1], keyBefore);
    }
  }

  /** The shard the inner loop of the scheduler picks. */
  method LeastLoaded(loads: seq<nat>) returns (target: nat)
    requires loads != []
    ensures FirstLeast(loads, target)
  {
    target := 0;
    for index := 1 to |loads|
      invariant target < index
      invariant forall s :: 0 <= s < index ==> loads[target] <= loads[s]
      invariant forall s :: 0 <= s < target ==> loads[target] < loads[s]
    {
      if loads[index] < loads[target] {
        target := index;
      }
    }
  }

  ghost function FirstLeastIndex(loads: seq<nat>): (t: nat)
    requires loads != []
    ensures FirstLeast(loads, t)
  {
    if |loads| == 1 then 0
    else
      var t := FirstLeastIndex(loads[..|loads| - 1]);
      if loads[|loads| - 1] < loads[t] then |loads| - 1 else t
  }

  /** The targets greedy scheduling gives to weights v, one after the other. */
  ghost function GreedyTargets(init: seq<nat>, v: seq<nat>): (a: seq<nat>)
    requires init != []
    ensures ValidTargets(|init|, v, a)
  {
    if v == [] then []
    else
      var n := |v| - 1;
      var a := GreedyTargets(init, v[..n]);
      a + [FirstLeastIndex(Loads(init, v[..n], a))]
  }

  lemma {:induction false} GreedyTargetsAreGreedy(init: seq<nat>, v: seq<nat>)
    requires init != []
    ensures IsGreedy(init, v, GreedyTargets(init, v))
  {
    if v != [] {
      var n := |v| - 1;
      var a := GreedyTargets(init, v[..n]);
      GreedyTargetsAreGreedy(init, v[..n]);
      assert GreedyTargets(init, v)[..n] == a;
    }
  }

  ghost function TargetMap(groups: seq<Group>, a: seq<nat>): map<string, nat>
    requires |a| == |groups|
  {
    if groups == [] then map[]
    else
      var n := |groups| - 1;
      TargetMap(groups[..n], a[..n])[groups[n].key := a[n]]
  }

  ghost predicate ValidInput(groups: seq<Group>, shardCount: int, initialLoads: seq<int>) {
    shardCount >= 1 && ValidLoads(shardCount, initialLoads) && ValidGroups(groups)
  }

  lemma SortedKeepsGroups(groups: seq<Group>, keyBefore: (string, string) -> bool)
    requires ValidGroups(groups)
    ensures NonNegative(Sorted(groups, keyBefore))
    ensures Keys(Sorted(groups, keyBefore)) == Keys(groups)
  {
    var order := Sorted(groups, keyBefore);
    forall g
      ensures g in order <==> g in groups
    {
      assert g in order <==> g in multiset(order);
      assert g in groups <==> g in multiset(groups);
    }
    assert forall i :: 0 <= i < |order| ==> order[i] in order;
  }

  ghost function ScheduleOf(groups: seq<Group>, shardCount: int, initialLoads: seq<int>,
                            keyBefore: (string, string) -> bool): Schedule
    requires ValidInput(groups, shardCount, initialLoads)
  {
    SortedKeepsGroups(groups, keyBefore);
    var order := Sorted(groups, keyBefore);
    var init := Padded(shardCount, initialLoads);
    var a := GreedyTargets(init, Weights(order));
    Schedule(TargetMap(order, a), Loads(init, Weights(order), a))
  }

  method AssignWptSpecGroups(groups: seq<Group>, shardCount: int, initialLoads: seq<int>,
                             keyBefore: (string, string) -> bool)
      returns (r: Result<Schedule, ShardError>)
    ensures shardCount < 1 ==> r == Failure(BadShardCount)
    ensures shardCount >= 1 && !ValidLoads(shardCount, initialLoads) ==> r == Failure(BadInitialLoads)
    ensures shardCount >= 1 && ValidLoads(shardCount, initialLoads) && FirstBadGroup(groups).Some? ==>
              r == Failure(FirstBadGroup(groups).value)
    ensures r.Success? <==> ValidInput(groups, shardCount, initialLoads)
    ensures r.Success? ==> r.value == ScheduleOf(groups, shardCount, initialLoads, keyBefore)
  {
    NoComplaintMeansValid(groups);
    if shardCount < 1 {
      return Failure(BadShardCount);
    }
    if |initialLoads| > shardCount || exists x :: x in initialLoads && x < 0 {
      return Failure(BadInitialLoads);
    }
    assert ValidLoads(shardCount, initialLoads);
    var bad := CheckGroups(groups);
    if bad.Some? {
      return Failure(bad.value);
    }
    SortedKeepsGroups(groups, keyBefore);
    var loads := PadLoads(shardCount, initialLoads);
    var schedule := PlaceGroups(Sorted(groups, keyBefore), loads);
    return Success(schedule);
  }

  /** The placing loop, on groups already in scheduling order. */
  method PlaceGroups(orderedGroups: seq<Group>, initialLoads: seq<nat>) returns (out: Schedule)
    requires initialLoads != [] && NonNegative(orderedGroups)
    ensures var a := GreedyTargets(initialLoads, Weights(orderedGroups));
            out == Schedule(TargetMap(orderedGroups, a), Loads(initialLoads, Weights(orderedGroups), a))
  {
    ghost var v := Weights(orderedGroups);
    var loads: seq<nat> := initialLoads;
    var assignments: map<string, nat> := map[];
    ghost var a: seq<nat> := [];
    for k := 0 to |orderedGroups|
      invariant Placed(orderedGroups[..k], initialLoads, v[..k], a, loads, assignments)
    {
      var target := LeastLoaded(loads);
      PlaceOneMore(orderedGroups, initialLoads, k, a, loads, assignments, target);
      assignments := assignments[orderedGroups[k].key := target];
      loads := loads[target := loads[target] + orderedGroups[k].weight];
      a := a + [target];
    }
    assert v[..|orderedGroups|] == v && orderedGroups[..|orderedGroups|] == orderedGroups;
    out := Schedule(assignments, loads);
  }

  /** The greedy targets of these groups, with the loads and the assignments they make. */
  ghost predicate Placed(groups: seq<Group>, init: seq<nat>, v: seq<nat>, a: seq<nat>, l: seq<nat>,
                         m: map<string, nat>)
    requires init != []
  {
    && |v| == |groups| && a == GreedyTargets(init, v) && l == Loads(init, v, a) && m == TargetMap(groups, a)
  }

  lemma PlaceOneMore(groups: seq<Group>, init: seq<nat>, k: nat, a: seq<nat>, l: seq<nat>, m: map<string, nat>,
                     target: nat)
    requires init != [] && NonNegative(groups) && k < |groups|
    requires Placed(groups[..k], init, Weights(groups)[..k], a, l, m) && FirstLeast(l, target)
    ensures Placed(groups[..k + 1], init, Weights(groups)[..k + 1], a + [target],
                   l[target := l[target] + groups[k].weight], m[groups[k].key := target])
  {
    var v := Weights(groups);
    NextTarget(init, v, k, target);
    NextLoads(init, v, k, a, l, target);
    NextAssignment(groups, k, a, target);
    assert v[k] == groups[k].weight;
  }

  lemma NextTarget(init: seq<nat>, v: seq<nat>, k: nat, target: nat)
    requires init != [] && k < |v|
    requires FirstLeast(Loads(init, v[..k], GreedyTargets(init, v[..k])), target)
    ensures GreedyTargets(init, v[..k + 1]) == GreedyTargets(init, v[..k]) + [target]
  {
    var l := Loads(init, v[..k], GreedyTargets(init, v[..k]));
    FirstLeastUnique(l, target, FirstLeastIndex(l));
    assert v[..k + 1][..k] == v[..k];
  }

  lemma NextLoads(init: seq<nat>, v: seq<nat>, k: nat, a: seq<nat>, l: seq<nat>, target: nat)
    requires k < |v| && target < |init| && ValidTargets(|init|, v[..k], a) && l == Loads(init, v[..k], a)
    ensures ValidTargets(|init|, v[..k + 1], a + [target])
    ensures Loads(init, v[..k + 1], a + [target]) == l[target := l[target] + v[k]]
  {
    LoadsAppend(init, v[..k], a, v[k], target);
    assert v[..k] + [v[k]] == v[..k + 1];
  }

  lemma NextAssignment(groups: seq<Group>, k: nat, a: seq<nat>, target: nat)
    requires k < |groups| && |a| == k
    ensures TargetMap(groups[..k + 1], a + [target]) == TargetMap(groups[..k], a)[groups[k].key := target]
  {
    assert groups[..k + 1][..k] == groups[..k] && (a + [target])[..k] == a;
  }

  lemma FirstLeastUnique(l: seq<nat>, t: nat, u: nat)
    requires FirstLeast(l, t) && FirstLeast(l, u)
    ensures t == u
  {
    assert l[t] <= l[u] && l[u] <= l[t];
  }

  method CheckGroups(groups: seq<Group>) returns (bad: Option<ShardError>)
    ensures bad == FirstBadGroup(groups)
  {
    var seenKeys: set<string> := {};
    for i := 0 to |groups|
      invariant seenKeys == Keys(groups[..i])
      invariant FirstBadGroup(groups[..i]).None?
    {
      var group := groups[i];
      assert groups[..i + 1][..i] == groups[..i];
      if group.key == "" || group.weight < 0 {
        BadPrefix(groups, i + 1);
        return Some(BadGroup);
      }
      if group.key in seenKeys {
        BadPrefix(groups, i + 1);
        return Some(DuplicateGroup(group.key));
      }
      seenKeys := seenKeys + {group.key};
      KeysAppend(groups[..i], group);
      assert groups[..i + 1] == groups[..i] + [group];
    }
    assert groups[..|groups|] == groups;
    return None;
  }

  lemma KeysAppend(groups: seq<Group>, g: Group)
    ensures Keys(groups + [g]) == Keys(groups) + {g.key}
  {
  }

  lemma {:induction false} BadPrefix(groups: seq<Group>, k: nat)
    requires k <= |groups| && FirstBadGroup(groups[..k]).Some?
    ensures FirstBadGroup(groups) == FirstBadGroup(groups[..k])
    decreases |groups| - k
  {
    if k == |groups| {
      assert groups[..k] == groups;
    } else {
      assert groups[..k + 1][..k] == groups[..k];
      BadPrefix(groups, k + 1);
    }
  }

  method PadLoads(shardCount: int, initialLoads: seq<int>) returns (loads: seq<nat>)
    requires shardCount >= 1 && ValidLoads(shardCount, initialLoads)
    ensures loads == Padded(shardCount, initialLoads)
  {
    loads := [];
    for i := 0 to shardCount
      invariant |loads| == i
      invariant forall j :: 0 <= j < i ==> loads[j] == Padded(shardCount, initialLoads)[j]
    {
      var load := 0;
      if i < |initialLoads| {
        assert initialLoads[i] in initialLoads;
        load := initialLoads[i];
      }
      loads := loads + [load];
    }
  }

  // ---- what the schedule means for the groups as given ----------------------

  ghost predicate Assigns(groups: seq<Group>, m: int, plan: map<string, nat>) {
    forall i :: 0 <= i < |groups| ==> groups[i].key in plan && plan[groups[i].key] < m
  }

  /** The weight a plan gives to one shard, summed over the groups in input order. */
  ghost function PlannedWeight(groups: seq<Group>, plan: map<string, nat>, m: int, s: nat): nat
    requires NonNegative(groups) && Assigns(groups, m, plan)
  {
    if groups == [] then 0
    else
      var n := |groups| - 1;
      PlannedWeight(groups[..n], plan, m, s) + if plan[groups[n].key] == s then groups[n].weight else 0
  }

  /** A plan on top of the initial loads finishes by T. */
  ghost predicate FinishesBy(groups: seq<Group>, m: int, initialLoads: seq<int>, plan: map<string, nat>, T: nat)
    requires ValidLoads(m, initialLoads) && NonNegative(groups) && Assigns(groups, m, plan)
  {
    forall s :: 0 <= s < m ==> Padded(m, initialLoads)[s] + PlannedWeight(groups, plan, m, s) <= T
  }

  ghost function PlanTargets(groups: seq<Group>, m: int, plan: map<string, nat>): (a: seq<nat>)
    requires Assigns(groups, m, plan)
    ensures |a| == |groups| && forall i :: 0 <= i < |a| ==> a[i] < m
  {
    seq(|groups|, i requires 0 <= i < |groups| => plan[groups[i].key])
  }

  lemma {:induction false} PlannedIsShardWeight(groups: seq<Group>, plan: map<string, nat>, m: int, s: nat)
    requires NonNegative(groups) && Assigns(groups, m, plan)
    ensures ShardWeight(Weights(groups), PlanTargets(groups, m, plan), s) == PlannedWeight(groups, plan, m, s)
    decreases |groups|
  {
    if groups != [] {
      var n := |groups| - 1;
      PlannedIsShardWeight(groups[..n], plan, m, s);
      assert Weights(groups)[..n] == Weights(groups[..n]);
      assert PlanTargets(groups, m, plan)[..n] == PlanTargets(groups[..n], m, plan);
    }
  }

  ghost predicate PlanFor(groups: seq<Group>, m: int, plan: map<string, nat>) {
    NonNegative(groups) && Assigns(groups, m, plan)
  }

  lemma PlanAppend(groups: seq<Group>, g: Group, m: int, plan: map<string, nat>)
    ensures PlanFor(groups + [g], m, plan)
       <==> PlanFor(groups, m, plan) && g.weight >= 0 && g.key in plan && plan[g.key] < m
  {
    var r := groups + [g];
    assert r[|groups|] == g && forall i :: 0 <= i < |groups| ==> r[i] == groups[i];
  }

  lemma PlannedAppend(groups: seq<Group>, g: Group, plan: map<string, nat>, m: int, s: nat)
    requires PlanFor(groups + [g], m, plan)
    ensures PlanFor(groups, m, plan) && g.key in plan
    ensures PlannedWeight(groups + [g], plan, m, s)
         == PlannedWeight(groups, plan, m, s) + if plan[g.key] == s then g.weight else 0
  {
    PlanAppend(groups, g, m, plan);
    assert (groups + [g])[..|groups|] == groups;
  }

  lemma {:induction false} InsertPlannedWeight(
      g: seq<Group>, x: Group, keyBefore: (string, string) -> bool, plan: map<string, nat>, m: int, s: nat)
    requires PlanFor(g, m, plan) && x.weight >= 0 && x.key in plan && plan[x.key] < m
    ensures PlanFor(Insert(g, x, keyBefore), m, plan)
    ensures PlannedWeight(Insert(g, x, keyBefore), plan, m, s)
         == PlannedWeight(g, plan, m, s) + if plan[x.key] == s then x.weight else 0
    decreases |g|
  {
    if g == [] || !Before(x, g[|g| - 1], keyBefore) {
      PlanAppend(g, x, m, plan);
      PlannedAppend(g, x, plan, m, s);
    } else {
      var n := |g| - 1;
      assert g == g[..n] + [g[n]];
      PlanAppend(g[..n], g[n], m, plan);
      InsertPlannedWeight(g[..n], x, keyBefore, plan, m, s);
      PlanAppend(Insert(g[..n], x, keyBefore), g[n], m, plan);
      PlannedAppend(Insert(g[..n], x, keyBefore), g[n], plan, m, s);
    }
  }

  /** Sorting does not change what a plan gives to a shard. */
  lemma {:induction false} SortedPlannedWeight(
      g: seq<Group>, keyBefore: (string, string) -> bool, plan: map<string, nat>, m: int, s: nat)
    requires NonNegative(g) && Assigns(g, m, plan)
    ensures NonNegative(Sorted(g, keyBefore)) && Assigns(Sorted(g, keyBefore), m, plan)
    ensures PlannedWeight(Sorted(g, keyBefore), plan, m, s) == PlannedWeight(g, plan, m, s)
    decreases |g|
  {
    if g != [] {
      var n := |g| - 1;
      SortedPlannedWeight(g[..n], keyBefore, plan, m, s);
      InsertPlannedWeight(Sorted(g[..n], keyBefore), g[n], keyBefore, plan, m, s);
    }
  }

  ghost predicate DistinctKeys(groups: seq<Group>) {
    DistinctBy(groups, (g: Group) => g.key)
  }

  lemma LastKeyIsNew(groups: seq<Group>)
    requires DistinctKeys(groups) && groups != []
    ensures groups[|groups| - 1].key !in Keys(groups[..|groups| - 1])
    ensures Keys(groups) == Keys(groups[..|groups| - 1]) + {groups[|groups| - 1].key}
  {
    var n := |groups| - 1;
    forall g | g in groups[..n]
      ensures g.key != groups[n].key
    {
      var i :| 0 <= i < n && groups[i] == g;
    }
    assert groups == groups[..n] + [groups[n]];
  }

  /** Distinct keys: the map built along the way forgets no placement. */
  lemma {:induction false} TargetMapIsTotal(groups: seq<Group>, a: seq<nat>)
    requires |a| == |groups| && DistinctKeys(groups)
    ensures TargetMap(groups, a).Keys == Keys(groups)
    ensures |TargetMap(groups, a)| == |groups|
    decreases |groups|
  {
    if groups != [] {
      var n := |groups| - 1;
      TargetMapIsTotal(groups[..n], a[..n]);
      LastKeyIsNew(groups);
    }
  }

  lemma {:induction false} TargetMapLookup(groups: seq<Group>, a: seq<nat>, i: nat)
    requires |a| == |groups| && DistinctKeys(groups) && i < |groups|
    ensures groups[i].key in TargetMap(groups, a) && TargetMap(groups, a)[groups[i].key] == a[i]
    decreases |groups|
  {
    var n := |groups| - 1;
    if i < n {
      TargetMapLookup(groups[..n], a[..n], i);
    }
  }

  lemma DistinctKeysPermute(s: seq<Group>, t: seq<Group>)
    requires multiset(s) == multiset(t) && ValidGroups(s)
    ensures ValidGroups(t)
  {
    forall g | g in t
      ensures g in s
    {
      assert g in multiset(t);
    }
    DistinctPermutes(s, t, (g: Group) => g.key);
  }

  /** The facts every theorem about a schedule starts from. */
  lemma ScheduleFacts(groups: seq<Group>, m: int, initialLoads: seq<int>, keyBefore: (string, string) -> bool)
      returns (order: seq<Group>, a: seq<nat>)
    requires ValidInput(groups, m, initialLoads)
    ensures order == Sorted(groups, keyBefore) && NonNegative(order) && ValidGroups(order)
    ensures a == GreedyTargets(Padded(m, initialLoads), Weights(order))
    ensures IsGreedy(Padded(m, initialLoads), Weights(order), a)
    ensures ScheduleOf(groups, m, initialLoads, keyBefore)
         == Schedule(TargetMap(order, a), Loads(Padded(m, initialLoads), Weights(order), a))
    ensures Keys(order) == Keys(groups) && NonNegative(groups)
    ensures TargetMap(order, a).Keys == Keys(groups) && |TargetMap(order, a)| == |groups|
    ensures Assigns(order, m, TargetMap(order, a)) && Assigns(groups, m, TargetMap(order, a))
    ensures PlanTargets(order, m, TargetMap(order, a)) == a
  {
    SortedKeepsGroups(groups, keyBefore);
    order := Sorted(groups, keyBefore);
    a := GreedyTargets(Padded(m, initialLoads), Weights(order));
    GreedyTargetsAreGreedy(Padded(m, initialLoads), Weights(order));
    DistinctKeysPermute(groups, order);
    TargetMapIsTotal(order, a);
    TargetsAssign(order, a, m);
    AssignsPermutes(order, groups, m, TargetMap(order, a));
  }

  lemma AssignsPermutes(s: seq<Group>, t: seq<Group>, m: int, plan: map<string, nat>)
    requires multiset(s) == multiset(t) && Assigns(s, m, plan)
    ensures Assigns(t, m, plan)
  {
    forall i | 0 <= i < |t|
      ensures t[i].key in plan && plan[t[i].key] < m
    {
      assert t[i] in multiset(t);
      var j :| 0 <= j < |s| && s[j] == t[i];
    }
  }

  lemma TargetsAssign(order: seq<Group>, a: seq<nat>, m: int)
    requires |a| == |order| && DistinctKeys(order)
    requires forall i :: 0 <= i < |a| ==> a[i] < m
    ensures Assigns(order, m, TargetMap(order, a))
    ensures PlanTargets(order, m, TargetMap(order, a)) == a
  {
    forall i | 0 <= i < |order|
      ensures order[i].key in TargetMap(order, a) && TargetMap(order, a)[order[i].key] == a[i]
    {
      TargetMapLookup(order, a, i);
    }
  }

  /**
    Every group is scheduled exactly once and a shard's load is what it started with
    plus the weights of exactly the groups assigned to it.
   */
  lemma LoadsAreTheAssignedWeights(groups: seq<Group>, m: int, initialLoads: seq<int>,
                                   keyBefore: (string, string) -> bool)
    requires ValidInput(groups, m, initialLoads)
    ensures var out := ScheduleOf(groups, m, initialLoads, keyBefore);
            && out.assignments.Keys == Keys(groups) && |out.assignments| == |groups| && |out.loads| == m
            && NonNegative(groups) && Assigns(groups, m, out.assignments)
            && forall s :: 0 <= s < m ==>
                 out.loads[s] == Padded(m, initialLoads)[s] + PlannedWeight(groups, out.assignments, m, s)
  {
    var order, a := ScheduleFacts(groups, m, initialLoads, keyBefore);
    var out := ScheduleOf(groups, m, initialLoads, keyBefore);
    forall s | 0 <= s < m
      ensures out.loads[s] == Padded(m, initialLoads)[s] + PlannedWeight(groups, out.assignments, m, s)
    {
      LoadIsShardWeight(Padded(m, initialLoads), Weights(order), a, s);
      PlannedIsShardWeight(order, out.assignments, m, s);
      SortedPlannedWeight(groups, keyBefore, out.assignments, m, s);
    }
  }

  ghost function TotalWeight(groups: seq<Group>): int {
    if groups == [] then 0 else TotalWeight(groups[..|groups| - 1]) + groups[|groups| - 1].weight
  }

  /** Scheduling conserves the total load. */
  lemma TotalLoadConserved(groups: seq<Group>, m: int, initialLoads: seq<int>, keyBefore: (string, string) -> bool)
    requires ValidInput(groups, m, initialLoads)
    ensures Sum(ScheduleOf(groups, m, initialLoads, keyBefore).loads)
         == Sum(Padded(m, initialLoads)) + TotalWeight(groups)
  {
    var order, a := ScheduleFacts(groups, m, initialLoads, keyBefore);
    LoadsConserveWeight(Padded(m, initialLoads), Weights(order), a);
    SumOfWeights(order);
    SortedTotalWeight(groups, keyBefore);
  }

  lemma {:induction false} SumOfWeights(groups: seq<Group>)
    requires NonNegative(groups)
    ensures Sum(Weights(groups)) == TotalWeight(groups)
    decreases |groups|
  {
    if groups != [] {
      SumOfWeights(groups[..|groups| - 1]);
      assert Weights(groups)[..|groups| - 1] == Weights(groups[..|groups| - 1]);
    }
  }

  lemma {:induction false} InsertTotalWeight(g: seq<Group>, x: Group, keyBefore: (string, string) -> bool)
    ensures TotalWeight(Insert(g, x, keyBefore)) == TotalWeight(g) + x.weight
    decreases |g|
  {
    if g == [] || !Before(x, g[|g| - 1], keyBefore) {
      assert (g + [x])[..|g|] == g;
    } else {
      InsertTotalWeight(g[..|g| - 1], x, keyBefore);
      var r := Insert(g[..|g| - 1], x, keyBefore);
      assert (r + [g[|g| - 1]])[..|r|] == r;
    }
  }

  lemma {:induction false} SortedTotalWeight(g: seq<Group>, keyBefore: (string, string) -> bool)
    ensures TotalWeight(Sorted(g, keyBefore)) == TotalWeight(g)
    decreases |g|
  {
    if g != [] {
      SortedTotalWeight(g[..|g| - 1], keyBefore);
      InsertTotalWeight(Sorted(g[..|g| - 1], keyBefore), g[|g| - 1], keyBefore);
    }
  }

  /** A rival plan, carried over to the order in which the scheduler works. */
  lemma RivalLoads(groups: seq<Group>, m: int, initialLoads: seq<int>, keyBefore: (string, string) -> bool,
                   rival: map<string, nat>, T: nat)
      returns (alt: seq<nat>)
    requires ValidInput(groups, m, initialLoads)
    requires NonNegative(groups) && Assigns(groups, m, rival) && FinishesBy(groups, m, initialLoads, rival, T)
    ensures NonNegative(Sorted(groups, keyBefore))
    ensures ValidTargets(m, Weights(Sorted(groups, keyBefore)), alt)
    ensures AllAtMost(Loads(Padded(m, initialLoads), Weights(Sorted(groups, keyBefore)), alt), T)
  {
    var init, order := Padded(m, initialLoads), Sorted(groups, keyBefore);
    SortedPlannedWeight(groups, keyBefore, rival, m, 0);
    alt := PlanTargets(order, m, rival);
    forall s | 0 <= s < m
      ensures Loads(init, Weights(order), alt)[s] <= T
    {
      SortedPlannedWeight(groups, keyBefore, rival, m, s);
      PlannedIsShardWeight(order, rival, m, s);
      LoadIsShardWeight(init, Weights(order), alt, s);
    }
  }

  /** Graham's bound for any initial loads: m * max <= (2m - 1) * T against every plan done by T. */
  lemma ScheduleWithinTwiceAnyPlan(groups: seq<Group>, m: int, initialLoads: seq<int>,
                                   keyBefore: (string, string) -> bool, rival: map<string, nat>, T: nat, s: nat)
    requires ValidInput(groups, m, initialLoads) && NonNegative(groups)
    requires Assigns(groups, m, rival) && FinishesBy(groups, m, initialLoads, rival, T)
    requires s < m
    ensures m * ScheduleOf(groups, m, initialLoads, keyBefore).loads[s] <= (2 * m - 1) * T
  {
    var order, a := ScheduleFacts(groups, m, initialLoads, keyBefore);
    var alt := RivalLoads(groups, m, initialLoads, keyBefore, rival, T);
    GreedyWithinTwiceOptimal(Padded(m, initialLoads), Weights(order), a, alt, T, s);
  }

  /** Graham's LPT bound when no shard starts loaded: 3m * max <= (4m - 1) * T. */
  lemma LptScheduleWithinFourThirdsOfAnyPlan(groups: seq<Group>, m: int, initialLoads: seq<int>,
                                             keyBefore: (string, string) -> bool,
                                             rival: map<string, nat>, T: nat, s: nat)
    requires ValidInput(groups, m, initialLoads) && NonNegative(groups)
    requires forall i :: 0 <= i < |initialLoads| ==> initialLoads[i] == 0
    requires Assigns(groups, m, rival) && FinishesBy(groups, m, initialLoads, rival, T)
    requires s < m
    ensures 3 * m * ScheduleOf(groups, m, initialLoads, keyBefore).loads[s] <= (4 * m - 1) * T
  {
    var order, a := ScheduleFacts(groups, m, initialLoads, keyBefore);
    var alt := RivalLoads(groups, m, initialLoads, keyBefore, rival, T);
    SortedHeaviestFirst(groups, keyBefore);
    LptFromEmptyShards(Padded(m, initialLoads), Weights(order), a, alt, T, s);
  }

  /** max - min never exceeds both the initial spread and the largest weight. */
  lemma SchedulePreservesBalance(groups: seq<Group>, m: int, initialLoads: seq<int>,
                                 keyBefore: (string, string) -> bool, d: nat)
    requires ValidInput(groups, m, initialLoads)
    requires SpreadAtMost(Padded(m, initialLoads), d)
    requires forall g :: g in groups ==> g.weight <= d
    ensures SpreadAtMost(ScheduleOf(groups, m, initialLoads, keyBefore).loads, d)
  {
    var order, a := ScheduleFacts(groups, m, initialLoads, keyBefore);
    forall i | 0 <= i < |order|
      ensures Weights(order)[i] <= d
    {
      assert order[i] in multiset(order);
    }
    GreedyKeepsSpread(Padded(m, initialLoads), Weights(order), a, d);
  }
}
