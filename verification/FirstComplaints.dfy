/** Which complaint a bad list of groups, results or summaries meets: always the first one. */
module FirstComplaints {
  import opened Wrappers
  import opened WptSharding
  import opened WptMerge

  /** Position k is the first at fault: before it everything is valid. */
  ghost predicate FirstAtFault(groups: seq<Group>, k: nat, error: ShardError) {
    && k < |groups| && ValidGroups(groups[..k])
    && (if groups[k].key == "" || groups[k].weight < 0 then error == BadGroup
        else error == DuplicateGroup(groups[k].key) && exists i :: 0 <= i < k && groups[i].key == groups[k].key)
  }

  lemma {:induction false} ComplaintIsTheFirst(groups: seq<Group>) returns (k: nat)
    requires FirstBadGroup(groups).Some?
    ensures FirstAtFault(groups, k, FirstBadGroup(groups).value)
  {
    var n := |groups| - 1;
    if FirstBadGroup(groups[..n]).Some? {
      k := ComplaintIsTheFirst(groups[..n]);
      assert groups[..n][..k] == groups[..k];
    } else {
      k := n;
      NoComplaintMeansValid(groups[..n]);
      assert forall g :: g in groups[..n] ==> exists i :: 0 <= i < n && groups[i] == g;
    }
  }

  /** Among results seen after the earlier ones, result k is the first at fault. */
  ghost predicate ResultAtFault(earlier: seq<TestResult>, results: seq<TestResult>, k: nat, error: ShardError) {
    && k < |results| && GoodResults(earlier + results[..k])
    && (if results[k].file == "" then error == EmptyFile
        else if results[k].name == "" then error == EmptyName
        else && error == DuplicateResult(results[k].file, results[k].name)
             && exists r :: r in earlier + results[..k] && IdentityOf(r) == IdentityOf(results[k]))
  }

  lemma {:induction false} ResultComplaintIsTheFirst(earlier: seq<TestResult>, results: seq<TestResult>)
    returns (k: nat)
    requires GoodResults(earlier) && FirstBadResult(earlier, results).Some?
    ensures ResultAtFault(earlier, results, k, FirstBadResult(earlier, results).value)
  {
    var n := |results| - 1;
    if FirstBadResult(earlier, results[..n]).Some? {
      k := ResultComplaintIsTheFirst(earlier, results[..n]);
      assert results[..n][..k] == results[..k];
    } else {
      k := n;
      NoBadResult(earlier, results[..n]);
    }
  }

  /** Summary n is the first at fault: its total is wrong, or one of its results is. */
  ghost predicate SummaryAtFault(summaries: seq<Summary>, n: nat, k: nat, error: ShardError) {
    && n < |summaries|
    && TotalsMatch(summaries[..n]) && GoodResults(AllResults(summaries[..n]))
    && (if |summaries[n].results| != summaries[n].total then error == TotalMismatch(n)
        else ResultAtFault(AllResults(summaries[..n]), summaries[n].results, k, error))
  }

  lemma {:induction false} SummaryComplaintIsTheFirst(summaries: seq<Summary>) returns (n: nat, k: nat)
    requires FirstBadSummary(summaries).Some?
    ensures SummaryAtFault(summaries, n, k, FirstBadSummary(summaries).value)
  {
    var last := |summaries| - 1;
    k := 0;
    if FirstBadSummary(summaries[..last]).Some? {
      n, k := SummaryComplaintIsTheFirst(summaries[..last]);
      assert summaries[..last][..n] == summaries[..n];
    } else {
      n := last;
      NoBadSummary(summaries[..last]);
      if |summaries[n].results| == summaries[n].total {
        k := ResultComplaintIsTheFirst(AllResults(summaries[..n]), summaries[n].results);
      }
    }
  }
}
