/** filter_quarterly_data and filter_all_analysis_data (backend/app/github.py): the
    finished analysis narrowed to the quarters a filter selects, the current quarter
    or the four quarters of the financial year. The quarterly insights keep only the
    rows of those quarters; the workflow analysis keeps only their activity and
    recomputes its trends. */
module Filters {
  import opened Common
  import opened Calendar
  import opened Quarters
  import opened Summary
  import opened Workflow
  import opened Analysis

  // ---------------------------------------------------------------------------
  // filter_quarterly_data
  // ---------------------------------------------------------------------------

  /** The row stored under `q`, as a one-entry table, or nothing. */
  function Picked(rows: SummaryTable, q: Label): SummaryTable
  {
    match Lookup(rows, q)
    case Some(row) => [(q, row)]
    case None => []
  }

  /** The rows of the target quarters, in the order of the targets. */
  function SelectQuarters(rows: SummaryTable, targets: seq<Label>): SummaryTable
  {
    if targets == [] then [] else SelectQuarters(rows, targets[..|targets| - 1]) + Picked(rows, targets[|targets| - 1])
  }

  /** In a table without repeated keys, `d.get(k)` finds exactly the stored pairs. */
  lemma {:induction false} LookupStored<K, V>(d: seq<(K, V)>, k: K, v: V)
    requires DistinctKeys(d)
    ensures Lookup(d, k) == Some(v) <==> (k, v) in d
  {
    if d != [] && d[0].0 != k {
      assert forall i, j :: 0 <= i < j < |d[1..]| ==> d[1..][i] == d[i + 1] && d[1..][j] == d[j + 1];
      LookupStored(d[1..], k, v);
      if (k, v) in d {
        var i :| 0 <= i < |d| && d[i] == (k, v);
        assert d[1..][i - 1] == (k, v);
      }
    } else if d != [] && (k, v) in d {
      var i :| 0 <= i < |d| && d[i] == (k, v);
      assert i == 0;
    }
  }

  /** A selected row is a row the table stores under one of the targets, and every such
      row is selected. */
  lemma {:induction false} SelectQuartersMembership(rows: SummaryTable, targets: seq<Label>, e: (Label, SummaryRow))
    ensures e in SelectQuarters(rows, targets) <==> e.0 in targets && Lookup(rows, e.0) == Some(e.1)
  {
    if targets != [] {
      var init := targets[..|targets| - 1];
      var last := targets[|targets| - 1];
      SelectQuartersMembership(rows, init, e);
      assert targets == init + [last];
    }
  }

  /** With distinct keys: a row is kept exactly when it is stored under a target. */
  lemma SelectQuartersMeaning(rows: SummaryTable, targets: seq<Label>, e: (Label, SummaryRow))
    requires DistinctKeys(rows)
    ensures e in SelectQuarters(rows, targets) <==> e in rows && e.0 in targets
  {
    SelectQuartersMembership(rows, targets, e);
    LookupStored(rows, e.0, e.1);
  }

  /** The selected quarters follow the order of the targets. */
  lemma {:induction false} SelectQuartersOrdered(rows: SummaryTable, targets: seq<Label>)
    ensures IsSubsequence(KeysOf(SelectQuarters(rows, targets)), targets)
  {
    if targets != [] {
      var init := targets[..|targets| - 1];
      var last := targets[|targets| - 1];
      var sel := SelectQuarters(rows, init);
      var picked := Picked(rows, last);
      SelectQuartersOrdered(rows, init);
      assert KeysOf(picked) == [] || KeysOf(picked) == [last];
      SubsequenceExtend(KeysOf(sel), init, KeysOf(picked), last);
      KeysOfAppend(sel, picked);
      assert targets == init + [last] by { }
    }
  }

  lemma KeysOfAppend<K, V>(a: seq<(K, V)>, b: seq<(K, V)>)
    ensures KeysOf(a + b) == KeysOf(a) + KeysOf(b)
  {
  }

  /** Distinct targets select each quarter at most once. */
  lemma {:induction false} SelectQuartersDistinct(rows: SummaryTable, targets: seq<Label>)
    requires forall i, j :: 0 <= i < j < |targets| ==> targets[i] != targets[j]
    ensures DistinctKeys(SelectQuarters(rows, targets))
  {
    if targets != [] {
      var init := targets[..|targets| - 1];
      var last := targets[|targets| - 1];
      var sel := SelectQuarters(rows, init);
      assert forall i, j :: 0 <= i < j < |init| ==> init[i] != init[j] by {
        forall i, j | 0 <= i < j < |init| ensures init[i] != init[j] {
          assert init[i] == targets[i] && init[j] == targets[j];
        }
      }
      SelectQuartersDistinct(rows, init);
      forall e | e in sel ensures e.0 != last {
        SelectQuartersMembership(rows, init, e);
        var k :| 0 <= k < |init| && init[k] == e.0;
        assert targets[k] == e.0;
      }
      var r := SelectQuarters(rows, targets);
      assert r == sel + Picked(rows, last);
      forall i, j | 0 <= i < j < |r| ensures r[i].0 != r[j].0 {
        if j >= |sel| {
          assert r[i] == sel[i] && r[j].0 == last;
        } else {
          assert r[i] == sel[i] && r[j] == sel[j];
        }
      }
    }
  }

  /** Appending a target, and possibly its key, keeps the subsequence relation. */
  lemma SubsequenceExtend(a: seq<Label>, b: seq<Label>, extra: seq<Label>, last: Label)
    requires IsSubsequence(a, b)
    requires extra == [] || extra == [last]
    ensures IsSubsequence(a + extra, b + [last])
  {
    SubsequenceAppend(a, b, extra, [last]);
    if extra == [] {
      assert a + extra == a;
      SubsequenceDrop(a, [last]);
    }
  }

  lemma {:induction false} SubsequenceAppend<T>(a: seq<T>, b: seq<T>, c: seq<T>, d: seq<T>)
    requires IsSubsequence(a, b) && (c == [] || c == d)
    requires |d| == 1
    ensures c == d ==> IsSubsequence(a + c, b + d)
    decreases |b|
  {
    if c == d {
      if a == [] {
        if b == [] {
          assert a + c == d && b + d == d;
          assert IsSubsequence(d[1..], d[1..]) by { assert d[1..] == []; }
        } else {
          assert (b + d)[1..] == b[1..] + d;
          assert IsSubsequence(a, b[1..]) by { assert a == []; }
          SubsequenceAppend(a, b[1..], c, d);
        }
      } else {
        assert b != [];
        assert (a + c)[0] == a[0] && (a + c)[1..] == a[1..] + c;
        assert (b + d)[0] == b[0] && (b + d)[1..] == b[1..] + d;
        if a[0] == b[0] && IsSubsequence(a[1..], b[1..]) {
          SubsequenceAppend(a[1..], b[1..], c, d);
        } else {
          SubsequenceAppend(a, b[1..], c, d);
        }
      }
    }
  }

  /** Adding elements at the end of the longer sequence keeps a subsequence one. */
  lemma {:induction false} SubsequenceDrop<T>(a: seq<T>, d: seq<T>)
    ensures forall b :: IsSubsequence(a, b) ==> IsSubsequence(a, b + d)
  {
    forall b | IsSubsequence(a, b) ensures IsSubsequence(a, b + d) {
      SubsequenceDropOne(a, b, d);
    }
  }

  lemma {:induction false} SubsequenceDropOne<T>(a: seq<T>, b: seq<T>, d: seq<T>)
    requires IsSubsequence(a, b)
    ensures IsSubsequence(a, b + d)
    decreases |b|
  {
    if a != [] {
      assert (b + d)[0] == b[0] && (b + d)[1..] == b[1..] + d;
      if a[0] == b[0] && IsSubsequence(a[1..], b[1..]) {
        SubsequenceDropOne(a[1..], b[1..], d);
      } else {
        SubsequenceDropOne(a, b[1..], d);
      }
    }
  }

  /** Selecting twice with the same distinct targets selects nothing new. */
  lemma SelectQuartersIdempotent(rows: SummaryTable, targets: seq<Label>)
    requires forall i, j :: 0 <= i < j < |targets| ==> targets[i] != targets[j]
    ensures SelectQuarters(SelectQuarters(rows, targets), targets) == SelectQuarters(rows, targets)
  {
    var sel := SelectQuarters(rows, targets);
    SelectQuartersDistinct(rows, targets);
    forall t | t in targets
      ensures Lookup(sel, t) == Lookup(rows, t)
    {
      if Lookup(rows, t).Some? {
        SelectQuartersMembership(rows, targets, (t, Lookup(rows, t).value));
        LookupStored(sel, t, Lookup(rows, t).value);
      } else if Lookup(sel, t).Some? {
        SelectQuartersMembership(rows, targets, (t, Lookup(sel, t).value));
      }
    }
    SelectSameLookups(sel, rows, targets);
  }

  /** Tables that answer every target alike select the same rows. */
  lemma {:induction false} SelectSameLookups(a: SummaryTable, b: SummaryTable, targets: seq<Label>)
    requires forall t :: t in targets ==> Lookup(a, t) == Lookup(b, t)
    ensures SelectQuarters(a, targets) == SelectQuarters(b, targets)
  {
    if targets != [] {
      SelectSameLookups(a, b, targets[..|targets| - 1]);
    }
  }

  /** The insights with only the rows of the target quarters. */
  function FilteredInsights(insights: QuarterlyInsights, quarterFilter: string, now: DateTime): QuarterlyInsights
  {
    if insights.quarters == [] then insights
    else insights.(quarters := SelectQuarters(insights.quarters, TargetQuarters(quarterFilter, now)))
  }

  /** filter_quarterly_data: the rows of the target quarters, looked up in the order of
      the targets; the year-over-year figures and the trends are kept as they were. */
  method FilterQuarterlyData(quarterlyInsights: QuarterlyInsights, quarterFilter: string, now: DateTime)
    returns (filtered: QuarterlyInsights)
    ensures filtered == FilteredInsights(quarterlyInsights, quarterFilter, now)
  {
    if quarterlyInsights.quarters == [] {
      return quarterlyInsights;
    }
    var quarters := quarterlyInsights.quarters;
    var targets := TargetQuarters(quarterFilter, now);
    var filteredQuarters: SummaryTable := [];
    for i := 0 to |targets|
      invariant filteredQuarters == SelectQuarters(quarters, targets[..i])
    {
      var quarter := targets[i];
      assert targets[..i + 1][..i] == targets[..i];
      var row := Lookup(quarters, quarter);
      if row.Some? {
        filteredQuarters := filteredQuarters + [(quarter, row.value)];
      }
    }
    assert targets[..|targets|] == targets;
    filtered := quarterlyInsights.(quarters := filteredQuarters);
  }

  /** The two target lists hold no quarter twice. */
  lemma TargetQuartersDistinct(quarterFilter: string, now: DateTime)
    ensures var targets := TargetQuarters(quarterFilter, now);
      forall i, j :: 0 <= i < j < |targets| ==> targets[i] != targets[j]
  {
  }

  /** The filtered insights show exactly the stored rows of the target quarters, each
      quarter once and in the order of the targets, keep the year-over-year figures and
      the trends, and filtering them again changes nothing. */
  lemma FilteredInsightsMeaning(insights: QuarterlyInsights, quarterFilter: string, now: DateTime, e: (Label, SummaryRow))
    requires DistinctKeys(insights.quarters)
    ensures var f := FilteredInsights(insights, quarterFilter, now);
      e in f.quarters <==> e in insights.quarters && e.0 in TargetQuarters(quarterFilter, now)
    ensures var f := FilteredInsights(insights, quarterFilter, now);
      IsSubsequence(KeysOf(f.quarters), TargetQuarters(quarterFilter, now)) && DistinctKeys(f.quarters)
    ensures var f := FilteredInsights(insights, quarterFilter, now);
      f.yearOverYear == insights.yearOverYear && f.trends == insights.trends
    ensures FilteredInsights(FilteredInsights(insights, quarterFilter, now), quarterFilter, now) ==
            FilteredInsights(insights, quarterFilter, now)
  {
    var targets := TargetQuarters(quarterFilter, now);
    TargetQuartersDistinct(quarterFilter, now);
    if insights.quarters != [] {
      SelectQuartersMeaning(insights.quarters, targets, e);
      SelectQuartersOrdered(insights.quarters, targets);
      SelectQuartersDistinct(insights.quarters, targets);
      SelectQuartersIdempotent(insights.quarters, targets);
    }
  }

  // ---------------------------------------------------------------------------
  // filter_all_analysis_data: the workflow analysis
  // ---------------------------------------------------------------------------

  /** The test `quarter in quarters_set` as a function value. */
  function InTargets(targets: seq<Label>): ((Label, PrActivity)) -> bool
  {
    (entry: (Label, PrActivity)) => entry.0 in targets
  }

  /** The workflow analysis as the source leaves it: the activity of the target quarters,
      and trends recomputed only when some of that activity is left. */
  function FilterWorkflowAsWritten(w: WorkflowAnalysis, targets: seq<Label>): WorkflowAnalysis
  {
    if w.quarterlyActivity == [] then w
    else
      var filtered := Filter(w.quarterlyActivity, InTargets(targets));
      if filtered != [] then w.(quarterlyActivity := filtered, quarterlyTrends := TrendsOf(filtered))
      else w.(quarterlyActivity := filtered)
  }

  /** The workflow analysis as intended: the activity of the target quarters and the
      trends of that activity, the empty trends when none is left. */
  function FilterWorkflow(w: WorkflowAnalysis, targets: seq<Label>): WorkflowAnalysis
  {
    if w.quarterlyActivity == [] then w
    else
      var filtered := Filter(w.quarterlyActivity, InTargets(targets));
      w.(quarterlyActivity := filtered, quarterlyTrends := TrendsOf(filtered))
  }

  /** As written, a consistent workflow whose only quarter the filter drops keeps the
      trends of the dropped quarter: no activity, yet three pull requests in total. */
  lemma StaleTrendsAsWritten()
    ensures var activity: ActivityTable := [(Quarter(2024, 1), PrActivity(3, 2, 66.7, []))];
      var w := WorkflowAnalysis([], activity, TrendsOf(activity));
      var f := FilterWorkflowAsWritten(w, [Quarter(2024, 2)]);
      Consistent(w) && f.quarterlyActivity == [] && f.quarterlyTrends.totalQuarterlyPrs == 3 &&
      f.quarterlyTrends.mostActiveQuarter.Some? && !Consistent(f)
  {
    var activity: ActivityTable := [(Quarter(2024, 1), PrActivity(3, 2, 66.7, []))];
    assert !InTargets([Quarter(2024, 2)])(activity[0]);
    assert Filter(activity, InTargets([Quarter(2024, 2)])) == [];
    assert SumPrs(activity) == 3;
  }

  /** The two agree whenever some activity of the target quarters is left. */
  lemma FilterWorkflowAgreesWhenActive(w: WorkflowAnalysis, targets: seq<Label>)
    requires Filter(w.quarterlyActivity, InTargets(targets)) != []
    ensures FilterWorkflowAsWritten(w, targets) == FilterWorkflow(w, targets)
  {
  }

  /** As written, the filter keeps the same activity as the corrected one and the same
      authors; while activity is left it is the corrected filter, and once none is left
      the trends stay as they were. Filtering twice is filtering once. */
  lemma FilterWorkflowAsWrittenMeaning(w: WorkflowAnalysis, targets: seq<Label>)
    ensures var f := FilterWorkflowAsWritten(w, targets);
      f.quarterlyActivity == FilterWorkflow(w, targets).quarterlyActivity &&
      f.mostActiveAuthors == w.mostActiveAuthors &&
      (f.quarterlyActivity != [] ==> f == FilterWorkflow(w, targets)) &&
      (f.quarterlyActivity == [] ==> f.quarterlyTrends == w.quarterlyTrends)
    ensures FilterWorkflowAsWritten(FilterWorkflowAsWritten(w, targets), targets) == FilterWorkflowAsWritten(w, targets)
  {
    FilterTwice(w.quarterlyActivity, InTargets(targets));
  }

  /** The corrected filter keeps the activity of the target quarters, in its order, keeps
      the most active authors, keeps the trends those of the activity, and is idempotent. */
  lemma {:induction false} FilterWorkflowMeaning(w: WorkflowAnalysis, targets: seq<Label>, e: (Label, PrActivity))
    ensures var f := FilterWorkflow(w, targets);
      e in f.quarterlyActivity <==> e in w.quarterlyActivity && e.0 in targets
    ensures IsSubsequence(FilterWorkflow(w, targets).quarterlyActivity, w.quarterlyActivity)
    ensures FilterWorkflow(w, targets).mostActiveAuthors == w.mostActiveAuthors
    ensures Consistent(w) ==> Consistent(FilterWorkflow(w, targets))
    ensures FilterWorkflow(FilterWorkflow(w, targets), targets) == FilterWorkflow(w, targets)
  {
    var p := InTargets(targets);
    FilterIsSubsequence(w.quarterlyActivity, p);
    FilterTwice(w.quarterlyActivity, p);
    if w.quarterlyActivity == [] {
      assert IsSubsequence(w.quarterlyActivity, w.quarterlyActivity);
    }
  }

  /** Filtering a filtered sequence with the same test changes nothing. */
  lemma {:induction false} FilterTwice<T>(s: seq<T>, p: T -> bool)
    ensures Filter(Filter(s, p), p) == Filter(s, p)
  {
    if s != [] {
      FilterTwice(s[1..], p);
      var r := Filter(s, p);
      if p(s[0]) {
        assert r != [] && r[0] == s[0] && r[1..] == Filter(s[1..], p);
      } else {
        assert r == Filter(s[1..], p);
      }
    }
  }

  /** The loop over `workflow['quarterly_activity'].items()` that keeps the entries of
      the target quarters. */
  method FilterQuarterlyActivity(activity: ActivityTable, targets: seq<Label>) returns (filtered: ActivityTable)
    ensures filtered == Filter(activity, InTargets(targets))
  {
    filtered := [];
    for i := 0 to |activity|
      invariant filtered == Filter(activity[..i], InTargets(targets))
    {
      var (quarter, data) := activity[i];
      FilterStep(activity, i, InTargets(targets), quarter in targets);
      if quarter in targets {
        filtered := filtered + [(quarter, data)];
      }
    }
    assert activity[..|activity|] == activity;
  }

  /** The workflow part of filter_all_analysis_data: the activity narrowed to the target
      quarters when there is any, then the trends recomputed when activity is left. The
      reset of the trends for no activity sits under a test of the dictionary the guard
      around it has just found non-empty, so it never runs. */
  method FilterWorkflowAnalysis(workflow: WorkflowAnalysis, quartersToKeep: seq<Label>) returns (filtered: WorkflowAnalysis)
    ensures filtered == FilterWorkflowAsWritten(workflow, quartersToKeep)
  {
    filtered := workflow;
    if filtered.quarterlyActivity != [] {
      var filteredQuarterlyActivity := FilterQuarterlyActivity(filtered.quarterlyActivity, quartersToKeep);
      filtered := filtered.(quarterlyActivity := filteredQuarterlyActivity);
    }
    if filtered.quarterlyActivity != [] {
      var activeQuarters := filtered.quarterlyActivity;
      if activeQuarters != [] {
        filtered := filtered.(quarterlyTrends := TrendsOf(activeQuarters));
      } else {
        assert false;
      }
    }
  }

  // ---------------------------------------------------------------------------
  // filter_all_analysis_data
  // ---------------------------------------------------------------------------

  /** The whole analysis narrowed to the quarters of the filter. */
  function FilteredAnalysis(a: RepositoryAnalysis, quarterFilter: string, now: DateTime): RepositoryAnalysis
  {
    a.(quarterlyInsights := FilteredInsights(a.quarterlyInsights, quarterFilter, now),
       pullRequestAnalysis := a.pullRequestAnalysis.(
         workflowAnalysis := FilterWorkflow(a.pullRequestAnalysis.workflowAnalysis, TargetQuarters(quarterFilter, now))))
  }

  /** Filtering leaves the ownership, the risk and the pull-request totals alone, keeps
      the workflow's trends those of its activity, and a second filtering changes
      nothing. */
  lemma FilteredAnalysisMeaning(a: RepositoryAnalysis, quarterFilter: string, now: DateTime)
    ensures var f := FilteredAnalysis(a, quarterFilter, now);
      f.codeOwnership == a.codeOwnership && f.dependencyRisk == a.dependencyRisk &&
      f.pullRequestAnalysis.totalPrs == a.pullRequestAnalysis.totalPrs &&
      f.pullRequestAnalysis.mergedPrs == a.pullRequestAnalysis.mergedPrs &&
      f.pullRequestAnalysis.openPrs == a.pullRequestAnalysis.openPrs &&
      f.pullRequestAnalysis.closedPrs == a.pullRequestAnalysis.closedPrs &&
      f.pullRequestAnalysis.mergeRate == a.pullRequestAnalysis.mergeRate
    ensures Consistent(a.pullRequestAnalysis.workflowAnalysis) ==>
      Consistent(FilteredAnalysis(a, quarterFilter, now).pullRequestAnalysis.workflowAnalysis)
    ensures FilteredAnalysis(FilteredAnalysis(a, quarterFilter, now), quarterFilter, now) == FilteredAnalysis(a, quarterFilter, now)
  {
    var w := a.pullRequestAnalysis.workflowAnalysis;
    var targets := TargetQuarters(quarterFilter, now);
    FilterWorkflowMeaning(w, targets, (Quarter(0, 1), PrActivity(0, 0, 0.0, [])));
    TargetQuartersDistinct(quarterFilter, now);
    SelectQuartersIdempotent(a.quarterlyInsights.quarters, targets);
  }

  /** The whole analysis as filter_all_analysis_data leaves it. */
  function FilteredAnalysisAsWritten(a: RepositoryAnalysis, quarterFilter: string, now: DateTime): RepositoryAnalysis
  {
    a.(quarterlyInsights := FilteredInsights(a.quarterlyInsights, quarterFilter, now),
       pullRequestAnalysis := a.pullRequestAnalysis.(
         workflowAnalysis := FilterWorkflowAsWritten(a.pullRequestAnalysis.workflowAnalysis, TargetQuarters(quarterFilter, now))))
  }

  /** As written, filtering leaves the ownership, the risk and the pull-request totals
      alone, agrees with the corrected filter whenever workflow activity is left, and a
      second filtering changes nothing. */
  lemma FilteredAnalysisAsWrittenMeaning(a: RepositoryAnalysis, quarterFilter: string, now: DateTime)
    ensures var f := FilteredAnalysisAsWritten(a, quarterFilter, now);
      f.codeOwnership == a.codeOwnership && f.dependencyRisk == a.dependencyRisk &&
      f.quarterlyInsights == FilteredAnalysis(a, quarterFilter, now).quarterlyInsights &&
      f.pullRequestAnalysis.totalPrs == a.pullRequestAnalysis.totalPrs &&
      f.pullRequestAnalysis.mergedPrs == a.pullRequestAnalysis.mergedPrs &&
      f.pullRequestAnalysis.openPrs == a.pullRequestAnalysis.openPrs &&
      f.pullRequestAnalysis.closedPrs == a.pullRequestAnalysis.closedPrs &&
      f.pullRequestAnalysis.mergeRate == a.pullRequestAnalysis.mergeRate
    ensures FilteredAnalysisAsWritten(a, quarterFilter, now).pullRequestAnalysis.workflowAnalysis.quarterlyActivity != [] ==>
      FilteredAnalysisAsWritten(a, quarterFilter, now) == FilteredAnalysis(a, quarterFilter, now)
    ensures FilteredAnalysisAsWritten(FilteredAnalysisAsWritten(a, quarterFilter, now), quarterFilter, now) ==
            FilteredAnalysisAsWritten(a, quarterFilter, now)
  {
    var targets := TargetQuarters(quarterFilter, now);
    FilterWorkflowAsWrittenMeaning(a.pullRequestAnalysis.workflowAnalysis, targets);
    TargetQuartersDistinct(quarterFilter, now);
    SelectQuartersIdempotent(a.quarterlyInsights.quarters, targets);
  }

  /** The analysis dictionary that filter_all_analysis_data updates in place. */
  class AnalysisDict {
    var codeOwnership: CodeOwnership
    var quarterlyInsights: QuarterlyInsights
    var dependencyRisk: DependencyRisk
    var pullRequestAnalysis: PrAnalysis

    function Contents(): RepositoryAnalysis
      reads this
    {
      RepositoryAnalysis(codeOwnership, quarterlyInsights, dependencyRisk, pullRequestAnalysis)
    }

    constructor (analysis: RepositoryAnalysis)
      ensures Contents() == analysis
    {
      codeOwnership := analysis.codeOwnership;
      quarterlyInsights := analysis.quarterlyInsights;
      dependencyRisk := analysis.dependencyRisk;
      pullRequestAnalysis := analysis.pullRequestAnalysis;
    }

    /** filter_all_analysis_data: replaces the quarterly insights by their rows of the
        target quarters and the workflow's activity by that of the target quarters, then
        recomputes the trends when activity is left; with none left the old trends stay. */
    method FilterAllAnalysisData(quarterFilter: string, now: DateTime)
      modifies this
      ensures Contents() == FilteredAnalysisAsWritten(old(Contents()), quarterFilter, now)
      ensures codeOwnership == old(codeOwnership) && dependencyRisk == old(dependencyRisk)
      ensures old(Consistent(pullRequestAnalysis.workflowAnalysis)) && pullRequestAnalysis.workflowAnalysis.quarterlyActivity != [] ==>
        Consistent(pullRequestAnalysis.workflowAnalysis)
      ensures pullRequestAnalysis.workflowAnalysis.quarterlyActivity == [] ==>
        pullRequestAnalysis.workflowAnalysis.quarterlyTrends == old(pullRequestAnalysis.workflowAnalysis.quarterlyTrends)
    {
      var quartersToKeep := TargetQuarters(quarterFilter, now);
      quarterlyInsights := FilterQuarterlyData(quarterlyInsights, quarterFilter, now);
      var workflow := FilterWorkflowAnalysis(pullRequestAnalysis.workflowAnalysis, quartersToKeep);
      ghost var before := pullRequestAnalysis.workflowAnalysis;
      pullRequestAnalysis := pullRequestAnalysis.(workflowAnalysis := workflow);
      FilterWorkflowAsWrittenMeaning(before, quartersToKeep);
      FilterWorkflowMeaning(before, quartersToKeep, (Quarter(0, 1), PrActivity(0, 0, 0.0, [])));
    }
  }
}
