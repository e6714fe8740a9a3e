/** Merging the result artifacts of the shards into one strict result set. */
module WptMerge {
  import opened Wrappers
  import opened Permutations
  import opened WptSharding

  datatype TestResult = TestResult(file: string, name: string, status: string)

  datatype Summary = Summary(total: int, results: seq<TestResult>)

  datatype Merged = Merged(total: nat, pass: nat, fail: nat, shardCount: nat, results: seq<TestResult>)

  function IdentityOf(r: TestResult): string { Identity(r.file, r.name) }

  ghost predicate Named(r: TestResult) { r.file != "" && r.name != "" }

  ghost function Identities(results: seq<TestResult>): set<string> {
    set r | r in results :: IdentityOf(r)
  }

  ghost function AllResults(summaries: seq<Summary>): seq<TestResult> {
    if summaries == [] then [] else AllResults(summaries[..|summaries| - 1]) + summaries[|summaries| - 1].results
  }

  /** What the merger accepts. */
  ghost predicate Mergeable(summaries: seq<Summary>) {
    && summaries != []
    && (forall i :: 0 <= i < |summaries| ==> |summaries[i].results| == summaries[i].total)
    && (forall r :: r in AllResults(summaries) ==> Named(r))
    && DistinctBy(AllResults(summaries), IdentityOf)
  }

  // ---- the total preorder that stands for localeCompare ---------------------

  ghost predicate TotalPreorder(compare: (string, string) -> int) {
    && (forall a, b :: compare(a, b) < 0 <==> compare(b, a) > 0)
    && (forall a, b, c :: compare(a, b) <= 0 && compare(b, c) <= 0 ==> compare(a, c) <= 0)
  }

  function CompareResults(l: TestResult, r: TestResult, compare: (string, string) -> int): int {
    var file, name := compare(l.file, r.file), compare(l.name, r.name);
    if file != 0 then file else if name != 0 then name else compare(l.status, r.status)
  }

  ghost predicate Ordered(s: seq<TestResult>, compare: (string, string) -> int) {
    forall i, j :: 0 <= i < j < |s| ==> CompareResults(s[i], s[j], compare) <= 0
  }

  lemma StrictTransitive(compare: (string, string) -> int, a: string, b: string, c: string)
    requires TotalPreorder(compare) && compare(a, b) <= 0 && compare(b, c) <= 0
    ensures compare(a, c) <= 0
    ensures compare(a, c) == 0 <==> compare(a, b) == 0 && compare(b, c) == 0
  {
    assert compare(a, b) == 0 ==> compare(b, a) == 0;
    assert compare(b, c) == 0 ==> compare(c, b) == 0;
    if compare(a, c) == 0 {
      assert compare(c, a) == 0;
      assert compare(c, a) <= 0 && compare(a, b) <= 0;
      assert compare(c, b) <= 0 && compare(b, a) <= 0;
    } else {
      assert !(compare(c, b) <= 0 && compare(b, a) <= 0);
    }
  }

  lemma CompareTransitive(l: TestResult, m: TestResult, r: TestResult, compare: (string, string) -> int)
    requires TotalPreorder(compare)
    requires CompareResults(l, m, compare) <= 0 && CompareResults(m, r, compare) <= 0
    ensures CompareResults(l, r, compare) <= 0
  {
    StrictTransitive(compare, l.file, m.file, r.file);
    if compare(l.file, r.file) == 0 {
      StrictTransitive(compare, l.name, m.name, r.name);
      if compare(l.name, r.name) == 0 {
        StrictTransitive(compare, l.status, m.status, r.status);
      }
    }
  }

  function InsertResult(s: seq<TestResult>, x: TestResult, compare: (string, string) -> int): (r: seq<TestResult>)
    ensures |r| == |s| + 1
    ensures multiset(r) == multiset(s) + multiset{x}
  {
    if s == [] || CompareResults(x, s[|s| - 1], compare) >= 0 then s + [x]
    else
      assert s == s[..|s| - 1] + [s[|s| - 1]];
      InsertResult(s[..|s| - 1], x, compare) + [s[|s| - 1]]
  }

  /** Stable sort by file, name and status. */
  function SortResults(s: seq<TestResult>, compare: (string, string) -> int): (r: seq<TestResult>)
    ensures |r| == |s|
    ensures multiset(r) == multiset(s)
  {
    if s == [] then []
    else
      assert s == s[..|s| - 1] + [s[|s| - 1]];
      InsertResult(SortResults(s[..|s| - 1], compare), s[|s| - 1], compare)
  }

  lemma {:induction false} InsertStaysBelow(
      s: seq<TestResult>, x: TestResult, compare: (string, string) -> int, top: TestResult)
    requires CompareResults(x, top, compare) <= 0
    requires forall i :: 0 <= i < |s| ==> CompareResults(s[i], top, compare) <= 0
    ensures forall i :: 0 <= i <= |s| ==> CompareResults(InsertResult(s, x, compare)[i], top, compare) <= 0
  {
    if s != [] {
      InsertStaysBelow(s[..|s| - 1], x, compare, top);
    }
  }

  lemma CompareConverse(l: TestResult, r: TestResult, compare: (string, string) -> int)
    requires TotalPreorder(compare)
    ensures CompareResults(l, r, compare) < 0 <==> CompareResults(r, l, compare) > 0
  {
  }

  lemma {:induction false} InsertKeepsOrdered(s: seq<TestResult>, x: TestResult, compare: (string, string) -> int)
    requires TotalPreorder(compare) && Ordered(s, compare)
    ensures Ordered(InsertResult(s, x, compare), compare)
  {
    if s != [] {
      var n := |s| - 1;
      CompareConverse(x, s[n], compare);
      CompareConverse(s[n], x, compare);
      if CompareResults(x, s[n], compare) < 0 {
        InsertKeepsOrdered(s[..n], x, compare);
        InsertStaysBelow(s[..n], x, compare, s[n]);
      } else {
        forall i | 0 <= i < |s|
          ensures CompareResults(s[i], x, compare) <= 0
        {
          if i < n {
            CompareTransitive(s[i], s[n], x, compare);
          }
        }
      }
    }
  }

  lemma {:induction false} SortOrders(s: seq<TestResult>, compare: (string, string) -> int)
    requires TotalPreorder(compare)
    ensures Ordered(SortResults(s, compare), compare)
  {
    if s != [] {
      SortOrders(s[..|s| - 1], compare);
      InsertKeepsOrdered(SortResults(s[..|s| - 1], compare), s[|s| - 1], compare);
    }
  }

  // ---- the merger -----------------------------------------------------------

  /** The first complaint about results, given what was already seen. */
  ghost function FirstBadResult(earlier: seq<TestResult>, results: seq<TestResult>): Option<ShardError> {
    if results == [] then None
    else
      var n := |results| - 1;
      var first := FirstBadResult(earlier, results[..n]);
      var r := results[n];
      if first.Some? then first
      else if r.file == "" then Some(EmptyFile)
      else if r.name == "" then Some(EmptyName)
      else if IdentityOf(r) in Identities(earlier + results[..n]) then Some(DuplicateResult(r.file, r.name))
      else None
  }

  ghost function FirstBadSummary(summaries: seq<Summary>): Option<ShardError> {
    if summaries == [] then None
    else
      var n := |summaries| - 1;
      var first := FirstBadSummary(summaries[..n]);
      if first.Some? then first
      else if |summaries[n].results| != summaries[n].total then Some(TotalMismatch(n))
      else FirstBadResult(AllResults(summaries[..n]), summaries[n].results)
  }

  function CountStatus(results: seq<TestResult>, status: string): nat {
    if results == [] then 0
    else CountStatus(results[..|results| - 1], status) + if results[|results| - 1].status == status then 1 else 0
  }

  method CountMatching(results: seq<TestResult>, status: string) returns (count: nat)
    ensures count == CountStatus(results, status)
  {
    count := 0;
    for i := 0 to |results|
      invariant count == CountStatus(results[..i], status)
    {
      assert results[..i + 1][..i] == results[..i];
      if results[i].status == status {
        count := count + 1;
      }
    }
    assert results[..|results|] == results;
  }

  method MergeWptSummaries(summaries: seq<Summary>, compare: (string, string) -> int)
      returns (r: Result<Merged, ShardError>)
    ensures summaries == [] ==> r == Failure(NoSummaries)
    ensures summaries != [] && FirstBadSummary(summaries).Some? ==> r == Failure(FirstBadSummary(summaries).value)
    ensures r.Success? <==> Mergeable(summaries)
    ensures r.Success? ==>
              var all := AllResults(summaries);
              && r.value.results == SortResults(all, compare)
              && r.value.total == |all| && r.value.shardCount == |summaries|
              && r.value.pass == CountStatus(r.value.results, "PASS")
              && r.value.fail == CountStatus(r.value.results, "FAIL")
  {
    NoComplaintMeansMergeable(summaries);
    if summaries == [] {
      return Failure(NoSummaries);
    }
    var identities: set<string> := {};
    var results: seq<TestResult> := [];
    for index := 0 to |summaries|
      invariant FirstBadSummary(summaries[..index]).None?
      invariant results == AllResults(summaries[..index])
      invariant identities == Identities(results)
    {
      var summary := summaries[index];
      assert summaries[..index + 1][..index] == summaries[..index];
      if |summary.results| != summary.total {
        LaterSummariesKeepComplaint(summaries, index + 1);
        return Failure(TotalMismatch(index));
      }
      var bad: Option<ShardError>;
      bad, identities := AddResults(results, summary.results, identities);
      if bad.Some? {
        LaterSummariesKeepComplaint(summaries, index + 1);
        return Failure(bad.value);
      }
      results := results + summary.results;
    }
    assert summaries[..|summaries|] == summaries;
    var sorted := SortResults(results, compare);
    var pass := CountMatching(sorted, "PASS");
    var fail := CountMatching(sorted, "FAIL");
    return Success(Merged(|results|, pass, fail, |summaries|, sorted));
  }

  /** The inner loop over the results of one shard. */
  method AddResults(earlier: seq<TestResult>, results: seq<TestResult>, seen: set<string>)
      returns (bad: Option<ShardError>, identities: set<string>)
    requires seen == Identities(earlier)
    ensures bad == FirstBadResult(earlier, results)
    ensures bad.None? ==> identities == Identities(earlier + results)
  {
    identities := seen;
    assert earlier + results[..0] == earlier;
    for i := 0 to |results|
      invariant FirstBadResult(earlier, results[..i]).None?
      invariant identities == Identities(earlier + results[..i])
    {
      assert results[..i + 1][..i] == results[..i];
      assert earlier + results[..i + 1] == (earlier + results[..i]) + [results[i]];
      var identity := TestIdentity(results[i].file, results[i].name);
      if identity.Failure? {
        LaterResultsKeepComplaint(earlier, results, i + 1);
        return Some(identity.error), identities;
      }
      if identity.value in identities {
        LaterResultsKeepComplaint(earlier, results, i + 1);
        return Some(DuplicateResult(results[i].file, results[i].name)), identities;
      }
      identities := identities + {identity.value};
    }
    assert results[..|results|] == results;
    return None, identities;
  }

  lemma {:induction false} LaterResultsKeepComplaint(earlier: seq<TestResult>, results: seq<TestResult>, k: nat)
    requires k <= |results| && FirstBadResult(earlier, results[..k]).Some?
    ensures FirstBadResult(earlier, results) == FirstBadResult(earlier, results[..k])
    decreases |results| - k
  {
    if k == |results| {
      assert results[..k] == results;
    } else {
      assert results[..k + 1][..k] == results[..k];
      LaterResultsKeepComplaint(earlier, results, k + 1);
    }
  }

  lemma {:induction false} LaterSummariesKeepComplaint(summaries: seq<Summary>, k: nat)
    requires k <= |summaries| && FirstBadSummary(summaries[..k]).Some?
    ensures FirstBadSummary(summaries) == FirstBadSummary(summaries[..k])
    decreases |summaries| - k
  {
    if k == |summaries| {
      assert summaries[..k] == summaries;
    } else {
      assert summaries[..k + 1][..k] == summaries[..k];
      LaterSummariesKeepComplaint(summaries, k + 1);
    }
  }

  ghost predicate GoodResults(results: seq<TestResult>) {
    (forall r :: r in results ==> Named(r)) && DistinctBy(results, IdentityOf)
  }

  lemma GoodAppend(s: seq<TestResult>, r: TestResult)
    ensures GoodResults(s + [r]) <==> GoodResults(s) && Named(r) && IdentityOf(r) !in Identities(s)
  {
    var t := s + [r];
    assert r in t && forall x :: x in s ==> x in t;
    if GoodResults(t) {
      assert forall i :: 0 <= i < |s| ==> t[i] == s[i];
      forall x | x in s
        ensures IdentityOf(x) != IdentityOf(r)
      {
        var i :| 0 <= i < |s| && s[i] == x;
        assert IdentityOf(t[i]) != IdentityOf(t[|s|]);
      }
    }
    if GoodResults(s) && Named(r) && IdentityOf(r) !in Identities(s) {
      forall i, j | 0 <= i < j < |t|
        ensures IdentityOf(t[i]) != IdentityOf(t[j])
      {
        if j == |s| {
          assert t[i] in s;
        }
      }
    }
  }

  lemma {:induction false} NoBadResult(earlier: seq<TestResult>, results: seq<TestResult>)
    requires GoodResults(earlier)
    ensures FirstBadResult(earlier, results).None? <==> GoodResults(earlier + results)
    decreases |results|
  {
    if results == [] {
      assert earlier + results == earlier;
    } else {
      var n := |results| - 1;
      NoBadResult(earlier, results[..n]);
      GoodAppend(earlier + results[..n], results[n]);
      assert (earlier + results[..n]) + [results[n]] == earlier + results;
    }
  }

  lemma GoodPrefix(s: seq<TestResult>, t: seq<TestResult>)
    requires GoodResults(s + t)
    ensures GoodResults(s)
  {
    assert forall i :: 0 <= i < |s| ==> (s + t)[i] == s[i];
    assert forall x :: x in s ==> x in s + t;
  }

  ghost predicate TotalsMatch(summaries: seq<Summary>) {
    forall i :: 0 <= i < |summaries| ==> |summaries[i].results| == summaries[i].total
  }

  lemma {:induction false} NoBadSummary(summaries: seq<Summary>)
    ensures FirstBadSummary(summaries).None? <==> TotalsMatch(summaries) && GoodResults(AllResults(summaries))
  {
    if summaries != [] {
      var n := |summaries| - 1;
      NoBadSummary(summaries[..n]);
      if GoodResults(AllResults(summaries[..n])) {
        NoBadResult(AllResults(summaries[..n]), summaries[n].results);
      }
      if GoodResults(AllResults(summaries)) {
        GoodPrefix(AllResults(summaries[..n]), summaries[n].results);
      }
    }
  }

  /** The merger complains about exactly the summaries that are not mergeable. */
  lemma NoComplaintMeansMergeable(summaries: seq<Summary>)
    ensures Mergeable(summaries) <==> summaries != [] && FirstBadSummary(summaries).None?
  {
    NoBadSummary(summaries);
  }

  lemma {:induction false} CountSplit(s: seq<TestResult>, t: seq<TestResult>, status: string)
    ensures CountStatus(s + t, status) == CountStatus(s, status) + CountStatus(t, status)
    decreases |t|
  {
    if t == [] {
      assert s + t == s;
    } else {
      assert (s + t)[..|s + t| - 1] == s + t[..|t| - 1];
      CountSplit(s, t[..|t| - 1], status);
    }
  }

  ghost function Statuses(results: seq<TestResult>): (r: seq<string>)
    ensures |r| == |results|
  {
    seq(|results|, i requires 0 <= i < |results| => results[i].status)
  }

  /** The count is how often the status occurs. */
  lemma {:induction false} CountIsMultiplicity(results: seq<TestResult>, status: string)
    ensures CountStatus(results, status) == multiset(Statuses(results))[status]
  {
    if results != [] {
      var n := |results| - 1;
      CountIsMultiplicity(results[..n], status);
      assert Statuses(results) == Statuses(results[..n]) + [results[n].status];
    }
  }

  /** Reordering results does not change how many have a given status. */
  lemma {:induction false} CountPermutes(s: seq<TestResult>, t: seq<TestResult>, status: string)
    requires multiset(s) == multiset(t)
    ensures CountStatus(s, status) == CountStatus(t, status)
    decreases |s|
  {
    if s == [] {
      assert |t| == |multiset(t)| == |multiset(s)| == 0;
    } else {
      var n := |s| - 1;
      assert s == s[..n] + [s[n]];
      assert s[n] in multiset(t);
      var k :| 0 <= k < |t| && t[k] == s[n];
      RemoveOne(t, k, status);
      var rest := t[..k] + t[k + 1..];
      assert multiset(rest) == multiset(s) - multiset{s[n]} == multiset(s[..n]);
      CountPermutes(s[..n], rest, status);
    }
  }

  lemma RemoveOne(t: seq<TestResult>, k: nat, status: string)
    requires k < |t|
    ensures multiset(t) == multiset(t[..k] + t[k + 1..]) + multiset{t[k]}
    ensures CountStatus(t, status) == CountStatus(t[..k] + t[k + 1..], status) + if t[k].status == status then 1 else 0
  {
    assert t == t[..k + 1] + t[k + 1..] && t[..k + 1] == t[..k] + [t[k]];
    CountSplit(t[..k + 1], t[k + 1..], status);
    assert t[..k + 1][..k] == t[..k];
    CountSplit(t[..k], t[k + 1..], status);
  }
}
