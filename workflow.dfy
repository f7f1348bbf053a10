/** The pull-request workflow of analyze_repository_data (backend/app/github.py):
    the per-quarter pull-request activity, the estimates that replace it when the
    repository has commits but no pull requests, the quarterly trends, and the basic
    pull-request statistics. Rates are exact rationals; the source rounds them. */
module Workflow {
  import opened Common
  import opened Calendar
  import opened Counting
  import opened Ownership
  import opened Activity
  import opened Summary

  // ---------------------------------------------------------------------------
  // Per-quarter activity
  // ---------------------------------------------------------------------------

  /** An entry of `quarterly_pr_activity`. */
  datatype PrActivity = PrActivity(prs: nat, merged: nat, mergeRate: real, topAuthors: seq<(AuthorKey, nat)>)

  type ActivityTable = seq<(Label, PrActivity)>

  function ActivityEntry(entry: (Label, QuarterData)): (Label, PrActivity)
  {
    (entry.0, PrActivity(entry.1.prCount, entry.1.mergedPrs, MergeRate(entry.1.mergedPrs, entry.1.prCount),
                         TopOf(entry.1.authorCommits, 3)))
  }

  predicate HasPrs(entry: (Label, QuarterData))
  {
    entry.1.prCount > 0
  }

  /** The loop over `quarterly_data` that records the quarters with pull requests. */
  method QuarterlyPrActivity(quarterlyData: QuarterTable) returns (quarterlyPrActivity: ActivityTable)
    ensures quarterlyPrActivity == SeqMap(ActivityEntry, Filter(quarterlyData, HasPrs))
  {
    quarterlyPrActivity := [];
    for i := 0 to |quarterlyData|
      invariant quarterlyPrActivity == SeqMap(ActivityEntry, Filter(quarterlyData[..i], HasPrs))
    {
      var data := quarterlyData[i].1;
      MapFilterStep(quarterlyData, i, HasPrs, ActivityEntry);
      if data.prCount > 0 {
        quarterlyPrActivity := quarterlyPrActivity + [ActivityEntry(quarterlyData[i])];
      }
    }
    assert quarterlyData[..|quarterlyData|] == quarterlyData;
  }

  /** A quarter has an activity entry exactly when pull requests were counted in it;
      the entry repeats its counts, with a merge rate between 0 and 100 when the
      merged count is within the total. */
  lemma {:induction false} ActivityMembership(quarterlyData: QuarterTable, q: Label, a: PrActivity)
    ensures (q, a) in SeqMap(ActivityEntry, Filter(quarterlyData, HasPrs)) <==>
      exists i :: 0 <= i < |quarterlyData| && quarterlyData[i].1.prCount > 0 && ActivityEntry(quarterlyData[i]) == (q, a)
    ensures (q, a) in SeqMap(ActivityEntry, Filter(quarterlyData, HasPrs)) ==>
      a.prs > 0 && (a.merged <= a.prs ==> 0.0 <= a.mergeRate <= 100.0)
  {
    MapFilterMembership(quarterlyData, HasPrs, ActivityEntry, (q, a));
  }

  // ---------------------------------------------------------------------------
  // Estimates used when there are commits but no pull requests
  // ---------------------------------------------------------------------------

  /** One estimated pull request per ten commits, at least one. */
  function EstimatedAuthor(entry: (AuthorKey, nat)): (AuthorKey, nat)
  {
    (entry.0, Max(1, entry.1 / 10))
  }

  /** `estimated_pr_authors`: the eight largest committers with their estimates. */
  method EstimatePrAuthors(authorCommits: seq<(AuthorKey, nat)>) returns (estimatedPrAuthors: seq<(AuthorKey, nat)>)
    ensures estimatedPrAuthors == SeqMap(EstimatedAuthor, TopOf(authorCommits, 8))
  {
    var top := TopOf(authorCommits, 8);
    estimatedPrAuthors := [];
    for i := 0 to |top|
      invariant |estimatedPrAuthors| == i
      invariant forall j :: 0 <= j < i ==> estimatedPrAuthors[j] == EstimatedAuthor(top[j])
    {
      var author := top[i].0;
      var commits := top[i].1;
      var estimatedPrs := Max(1, commits / 10);
      estimatedPrAuthors := estimatedPrAuthors + [(author, estimatedPrs)];
    }
  }

  /** The estimates are for the (at most) eight largest committers, each at least one
      and at most a tenth of the author's commits when that is more than one. */
  lemma {:induction false} EstimatedAuthorsMeaning(authorCommits: seq<(AuthorKey, nat)>)
    ensures var est := SeqMap(EstimatedAuthor, TopOf(authorCommits, 8));
      |est| == Min(8, |authorCommits|) &&
      (forall i :: 0 <= i < |est| ==>
        est[i].0 == TopOf(authorCommits, 8)[i].0 && 1 <= est[i].1 &&
        (TopOf(authorCommits, 8)[i].1 >= 10 ==> est[i].1 * 10 <= TopOf(authorCommits, 8)[i].1)) &&
      forall x, y :: x in authorCommits && x !in TopOf(authorCommits, 8) && y in TopOf(authorCommits, 8) ==> x.1 <= y.1
  {
    TopOfLargest(authorCommits, 8);
  }

  /** A quarter's estimated activity: one pull request per eight commits, at least
      one, of which `int(prs * 0.85)` merged, reported at an 85% merge rate. */
  function EstimatedEntry(entry: (Label, QuarterData)): (Label, PrActivity)
  {
    var estimatedPrs := Max(1, entry.1.commits / 8);
    (entry.0, PrActivity(estimatedPrs, estimatedPrs * 85 / 100, 85.0, TopOf(entry.1.authorCommits, 3)))
  }

  predicate HasCommits(entry: (Label, QuarterData))
  {
    entry.1.commits > 0
  }

  /** The loop that estimates the activity of every quarter with commits. */
  method EstimateQuarterlyActivity(quarterlyData: QuarterTable) returns (estimatedQuarterlyActivity: ActivityTable)
    ensures estimatedQuarterlyActivity == SeqMap(EstimatedEntry, Filter(quarterlyData, HasCommits))
  {
    estimatedQuarterlyActivity := [];
    for i := 0 to |quarterlyData|
      invariant estimatedQuarterlyActivity == SeqMap(EstimatedEntry, Filter(quarterlyData[..i], HasCommits))
    {
      var data := quarterlyData[i].1;
      MapFilterStep(quarterlyData, i, HasCommits, EstimatedEntry);
      if data.commits > 0 {
        estimatedQuarterlyActivity := estimatedQuarterlyActivity + [EstimatedEntry(quarterlyData[i])];
      }
    }
    assert quarterlyData[..|quarterlyData|] == quarterlyData;
  }

  /** Every estimated quarter has at least one pull request, no more merged than
      estimated, and never more pull requests than commits. */
  lemma {:induction false} EstimatedActivityMeaning(quarterlyData: QuarterTable)
    ensures forall e :: e in SeqMap(EstimatedEntry, Filter(quarterlyData, HasCommits)) ==>
      1 <= e.1.prs && e.1.merged <= e.1.prs && e.1.mergeRate == 85.0 &&
      exists i :: 0 <= i < |quarterlyData| && quarterlyData[i].0 == e.0 && e.1.prs <= quarterlyData[i].1.commits
  {
    var kept := Filter(quarterlyData, HasCommits);
    var rows := SeqMap(EstimatedEntry, kept);
    forall e | e in rows
      ensures 1 <= e.1.prs && e.1.merged <= e.1.prs && e.1.mergeRate == 85.0 &&
        exists i :: 0 <= i < |quarterlyData| && quarterlyData[i].0 == e.0 && e.1.prs <= quarterlyData[i].1.commits
    {
      var j :| 0 <= j < |rows| && rows[j] == e;
      assert kept[j] in quarterlyData;
      var i :| 0 <= i < |quarterlyData| && quarterlyData[i] == kept[j];
      assert quarterlyData[i].0 == e.0 && e.1.prs <= quarterlyData[i].1.commits;
    }
  }

  // ---------------------------------------------------------------------------
  // Workflow analysis and its trends
  // ---------------------------------------------------------------------------

  datatype PrTrends = PrTrends(
    mostActiveQuarter: Option<(Label, PrActivity)>,
    highestQualityQuarter: Option<(Label, PrActivity)>,
    totalQuarterlyPrs: nat,
    avgQuarterlyMergeRate: real)

  datatype WorkflowAnalysis = WorkflowAnalysis(
    mostActiveAuthors: seq<(AuthorKey, nat)>,
    quarterlyActivity: ActivityTable,
    quarterlyTrends: PrTrends)

  function PrsKey(entry: (Label, PrActivity)): real
  {
    entry.1.prs as real
  }

  function RateKey(entry: (Label, PrActivity)): real
  {
    entry.1.mergeRate
  }

  function SumPrs(activity: ActivityTable): nat
  {
    if activity == [] then 0 else activity[0].1.prs + SumPrs(activity[1..])
  }

  function SumRates(activity: ActivityTable): real
  {
    if activity == [] then 0.0 else activity[0].1.mergeRate + SumRates(activity[1..])
  }

  /** `quarterly_trends`, computed from the quarterly activity it is stored with. */
  function TrendsOf(activity: ActivityTable): PrTrends
  {
    if activity == [] then PrTrends(None, None, 0, 0.0)
    else PrTrends(
      Some(activity[FirstMaxIndex(activity, PrsKey)]),
      Some(activity[FirstMaxIndex(activity, RateKey)]),
      SumPrs(activity),
      SumRates(activity) / |activity| as real)
  }

  /** The trends name a quarter with the most pull requests and one with the highest
      merge rate (the first of each), and there are none exactly when there is no
      activity. */
  lemma {:induction false} TrendsMeaning(activity: ActivityTable)
    ensures var t := TrendsOf(activity);
      (t.mostActiveQuarter.None? <==> activity == []) &&
      (t.highestQualityQuarter.None? <==> activity == []) &&
      (activity == [] ==> t.totalQuarterlyPrs == 0 && t.avgQuarterlyMergeRate == 0.0) &&
      (t.mostActiveQuarter.Some? ==>
        t.mostActiveQuarter.value in activity &&
        (forall e :: e in activity ==> e.1.prs <= t.mostActiveQuarter.value.1.prs) &&
        FirstMaximum(activity, PrsKey, t.mostActiveQuarter.value)) &&
      (t.highestQualityQuarter.Some? ==>
        t.highestQualityQuarter.value in activity &&
        (forall e :: e in activity ==> e.1.mergeRate <= t.highestQualityQuarter.value.1.mergeRate) &&
        FirstMaximum(activity, RateKey, t.highestQualityQuarter.value))
  {
    if activity != [] {
      var m := FirstMaxIndex(activity, PrsKey);
      var h := FirstMaxIndex(activity, RateKey);
      forall e | e in activity
        ensures e.1.prs <= activity[m].1.prs && e.1.mergeRate <= activity[h].1.mergeRate
      {
        var j :| 0 <= j < |activity| && activity[j] == e;
        assert PrsKey(activity[j]) <= PrsKey(activity[m]);
        assert RateKey(activity[j]) <= RateKey(activity[h]);
      }
      assert FirstMaximum(activity, PrsKey, activity[m]);
      assert FirstMaximum(activity, RateKey, activity[h]);
    }
  }

  const NoDataAvailable: AuthorKey := Some("No data available")

  /** `most_active_authors`: the five largest pull-request authors, or a placeholder. */
  function MostActiveAuthors(prAuthors: seq<(AuthorKey, nat)>): seq<(AuthorKey, nat)>
  {
    if prAuthors != [] then TopOf(prAuthors, 5) else [(NoDataAvailable, 0)]
  }

  function WorkflowOf(prAuthors: seq<(AuthorKey, nat)>, quarterlyPrActivity: ActivityTable): WorkflowAnalysis
  {
    WorkflowAnalysis(MostActiveAuthors(prAuthors), quarterlyPrActivity, TrendsOf(quarterlyPrActivity))
  }

  /** The workflow's trends are those of its own quarterly activity. */
  predicate Consistent(w: WorkflowAnalysis)
  {
    w.quarterlyTrends == TrendsOf(w.quarterlyActivity)
  }

  lemma {:induction false} MostActiveAuthorsMeaning(prAuthors: seq<(AuthorKey, nat)>)
    ensures prAuthors == [] ==> MostActiveAuthors(prAuthors) == [(NoDataAvailable, 0)]
    ensures prAuthors != [] ==>
      |MostActiveAuthors(prAuthors)| == Min(5, |prAuthors|) &&
      RankedByCount(MostActiveAuthors(prAuthors)) &&
      multiset(MostActiveAuthors(prAuthors)) <= multiset(prAuthors) &&
      forall x, y :: x in prAuthors && x !in MostActiveAuthors(prAuthors) && y in MostActiveAuthors(prAuthors) ==> x.1 <= y.1
    ensures Consistent(WorkflowOf(prAuthors, []))
  {
    if prAuthors != [] {
      TopOfLargest(prAuthors, 5);
    }
  }

  // ---------------------------------------------------------------------------
  // Pull requests counted per quarter
  // ---------------------------------------------------------------------------

  /** The activity entries repeat their quarters' pull-request counts. */
  lemma {:induction false} ActivityPrsSum(kept: QuarterTable)
    ensures SumPrs(SeqMap(ActivityEntry, kept)) == TablePrs(kept)
  {
    if kept != [] {
      var rows := SeqMap(ActivityEntry, kept);
      assert rows[1..] == SeqMap(ActivityEntry, kept[1..]);
      assert rows[0].1.prs == kept[0].1.prCount;
      ActivityPrsSum(kept[1..]);
    }
  }

  /** Quarters without pull requests add nothing to the total. */
  lemma {:induction false} TablePrsOfActive(table: QuarterTable)
    ensures TablePrs(Filter(table, HasPrs)) == TablePrs(table)
  {
    if table != [] {
      TablePrsOfActive(table[1..]);
      if HasPrs(table[0]) {
        assert Filter(table, HasPrs) == [table[0]] + Filter(table[1..], HasPrs);
      } else {
        assert Filter(table, HasPrs) == Filter(table[1..], HasPrs);
      }
    }
  }

  /** The pull requests counted in the table, over all its quarters. */
  function TablePrs(table: QuarterTable): nat
  {
    if table == [] then 0 else table[0].1.prCount + TablePrs(table[1..])
  }

  /** A table of quarters without pull requests, after the pull-request loop. */
  lemma {:induction false} TablePrsCounted(prs: seq<PullRecord>, quarters: seq<Label>, now: DateTime,
                                           parse: string -> Option<DateTime>, table: QuarterTable)
    requires |table| == |quarters|
    requires forall i :: 0 <= i < |quarters| ==>
      table[i].1.prCount == |Filter(prs, PrInQuarter(quarters[i], now, parse))|
    ensures TablePrs(table) == CountedPerQuarter(prs, PrDate, quarters, now, parse)
  {
    if quarters != [] {
      assert forall i :: 0 <= i < |quarters[1..]| ==> quarters[1..][i] == quarters[i + 1] && table[1..][i] == table[i + 1];
      TablePrsCounted(prs, quarters[1..], now, parse, table[1..]);
    }
  }

  /** No pull request is counted in two quarters: the quarterly activity adds up to at
      most the number of pull requests. */
  lemma {:induction false} QuarterlyPrsBounded(prs: seq<PullRecord>, quarters: seq<Label>, now: DateTime,
                                               parse: string -> Option<DateTime>, table: QuarterTable)
    requires forall i, j :: 0 <= i < j < |quarters| ==> quarters[i] != quarters[j]
    requires |table| == |quarters|
    requires forall i :: 0 <= i < |quarters| ==>
      table[i].1.prCount == |Filter(prs, PrInQuarter(quarters[i], now, parse))|
    ensures TrendsOf(SeqMap(ActivityEntry, Filter(table, HasPrs))).totalQuarterlyPrs <= |prs|
  {
    var activity := SeqMap(ActivityEntry, Filter(table, HasPrs));
    ActivityPrsSum(Filter(table, HasPrs));
    TablePrsOfActive(table);
    TablePrsCounted(prs, quarters, now, parse, table);
    CountedOnce(prs, PrDate, quarters, now, parse);
    assert TrendsOf(activity).totalQuarterlyPrs == SumPrs(activity);
  }

  // ---------------------------------------------------------------------------
  // Basic statistics
  // ---------------------------------------------------------------------------

  datatype PrAnalysis = PrAnalysis(
    totalPrs: nat,
    mergedPrs: nat,
    openPrs: nat,
    closedPrs: nat,
    mergeRate: real,
    workflowAnalysis: WorkflowAnalysis)

  predicate IsMerged(pr: PullRecord) { pr.merged }
  predicate IsOpen(pr: PullRecord) { pr.state == "open" }
  predicate ClosedUnmerged(pr: PullRecord) { pr.state == "closed" && !pr.merged }

  /** `pr_analysis`. */
  function PrStats(prs: seq<PullRecord>, workflow: WorkflowAnalysis): PrAnalysis
  {
    var merged := |Filter(prs, IsMerged)|;
    PrAnalysis(|prs|, merged, |Filter(prs, IsOpen)|, |Filter(prs, ClosedUnmerged)|, MergeRate(merged, |prs|), workflow)
  }

  /** The counts partition: merged and closed-unmerged pull requests are different
      ones, so are open and closed ones, and the merge rate is a percentage. */
  lemma {:induction false} PrStatsMeaning(prs: seq<PullRecord>, workflow: WorkflowAnalysis)
    ensures var s := PrStats(prs, workflow);
      s.mergedPrs + s.closedPrs <= s.totalPrs &&
      s.openPrs + s.closedPrs <= s.totalPrs &&
      0.0 <= s.mergeRate <= 100.0 &&
      (s.totalPrs == 0 ==> s.mergeRate == 0.0) &&
      s.mergedPrs == MergedCount(prs)
  {
    FilterDisjoint(prs, IsMerged, ClosedUnmerged);
    FilterDisjoint(prs, IsOpen, ClosedUnmerged);
    assert Filter(prs, IsMerged) == Filter(prs, (pr: PullRecord) => pr.merged) by {
      FilterSame(prs, IsMerged, (pr: PullRecord) => pr.merged);
    }
  }

  lemma {:induction false} FilterSame<T>(s: seq<T>, p: T -> bool, q: T -> bool)
    requires forall x :: p(x) == q(x)
    ensures Filter(s, p) == Filter(s, q)
  {
    if s != [] {
      FilterSame(s[1..], p, q);
    }
  }
}
