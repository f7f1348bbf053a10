/** analyze_repository_data (backend/app/github.py) as one pass over already
    filtered commits and pull requests: the commit loop, the code ownership
    figures, the quarterly summary and insights, the dependency risk, the
    pull-request loop with its fallback estimates, and the pull-request statistics.
    The steps run in the order of the source, so the quarterly summary is taken
    before any pull request is counted. */
module Analysis {
  import opened Common
  import opened Calendar
  import opened Quarters
  import opened Counting
  import opened Ownership
  import opened Activity
  import opened Summary
  import opened Workflow

  // ---------------------------------------------------------------------------
  // Results
  // ---------------------------------------------------------------------------

  /** The integer parts of `code_ownership`. */
  datatype CodeOwnership = CodeOwnership(
    topContributors: seq<(AuthorKey, nat)>,
    totalCommits: nat,
    uniqueContributors: nat,
    moduleImpact: seq<(AuthorKey, Estimates)>,
    topTenPercent: nat,
    bottomFiftyPercent: nat)

  /** The integer parts of `dependency_risk`. */
  datatype DependencyRisk = DependencyRisk(
    keyContributors: seq<KeyContributor>,
    busFactor: nat,
    criticalDependencyCount: nat,
    highDependencyCount: nat,
    overallRisk: RiskLevel,
    recommendations: seq<string>)

  datatype RepositoryAnalysis = RepositoryAnalysis(
    codeOwnership: CodeOwnership,
    quarterlyInsights: QuarterlyInsights,
    dependencyRisk: DependencyRisk,
    pullRequestAnalysis: PrAnalysis)

  // ---------------------------------------------------------------------------
  // code_ownership
  // ---------------------------------------------------------------------------

  /** What code_ownership reports about the per-author counts: the ranking holds
      the same entries in descending order of count, the module estimates follow the
      authors in order, and the distribution's two sums are parts of the total that
      do not overlap once there are two authors, the top one averaging at least as
      much per author as the bottom one and holding at least the largest count. */
  predicate OwnershipFacts(o: CodeOwnership, authorCommits: seq<(AuthorKey, nat)>, totalCommits: nat)
  {
    RankedByCount(o.topContributors) &&
    multiset(o.topContributors) == multiset(authorCommits) &&
    CountSum(o.topContributors) == CountSum(authorCommits) &&
    o.totalCommits == totalCommits && o.uniqueContributors == |authorCommits| &&
    KeysOf(o.moduleImpact) == KeysOf(authorCommits) &&
    (forall i :: 0 <= i < |authorCommits| ==> o.moduleImpact[i].1 == EstimatesFor(authorCommits[i].1)) &&
    o.topTenPercent <= CountSum(authorCommits) && o.bottomFiftyPercent <= CountSum(authorCommits) &&
    (|authorCommits| >= 2 ==>
      o.topTenPercent + o.bottomFiftyPercent <= CountSum(authorCommits) &&
      AverageAtLeast(o.topTenPercent, Max(1, |authorCommits| / 10), o.bottomFiftyPercent, |authorCommits| - |authorCommits| / 2)) &&
    (forall i :: 0 <= i < |authorCommits| ==> authorCommits[i].1 <= o.topTenPercent)
  }

  /** `code_ownership` from the per-author counts and the number of commits: the
      ranking, the module estimates per author, and the commit distribution over the
      ranking. */
  function OwnershipOf(authorCommits: seq<(AuthorKey, nat)>, totalCommits: nat): CodeOwnership
  {
    var ranked := Rank(authorCommits);
    CodeOwnership(ranked, totalCommits, |authorCommits|, ImpactOf(authorCommits),
                  TopTenPercent(ranked), BottomFiftyPercent(ranked))
  }

  lemma OwnershipOfFacts(authorCommits: seq<(AuthorKey, nat)>, totalCommits: nat)
    ensures OwnershipFacts(OwnershipOf(authorCommits, totalCommits), authorCommits, totalCommits)
  {
    RankSorted(authorCommits);
    CommitDistributionBounds(authorCommits);
    if |authorCommits| >= 2 {
      TopAverageAtLeastBottomAverage(authorCommits);
    }
  }

  /** The code_ownership block of analyze_repository_data. */
  method CodeOwnershipOf(authorCommits: seq<(AuthorKey, nat)>, totalCommits: nat) returns (ownership: CodeOwnership)
    ensures ownership == OwnershipOf(authorCommits, totalCommits)
    ensures OwnershipFacts(ownership, authorCommits, totalCommits)
  {
    var impact := ModuleImpact(authorCommits);
    var ranked := Rank(authorCommits);
    ownership := CodeOwnership(ranked, totalCommits, |authorCommits|, impact,
                               TopTenPercent(ranked), BottomFiftyPercent(ranked));
    OwnershipOfFacts(authorCommits, totalCommits);
  }

  // ---------------------------------------------------------------------------
  // dependency_risk
  // ---------------------------------------------------------------------------

  /** The counts, the overall risk and the advice derived from key_contributors. */
  function RiskOf(keyContributors: seq<KeyContributor>, total: int): DependencyRisk
  {
    var busFactor := BusFactor(keyContributors, total);
    var critical := CriticalDependency(keyContributors, total);
    var high := HighDependency(keyContributors, total);
    DependencyRisk(keyContributors, busFactor, critical, high,
                   OverallRisk(critical, high, busFactor), Recommendations(critical, high, busFactor))
  }

  /** A key contributor's commits are those of the ranked entry it was built from. */
  lemma {:induction false} CommitsOfKeyContributors(keyContributors: seq<KeyContributor>, topContributors: seq<(AuthorKey, nat)>)
    requires |keyContributors| == |topContributors|
    requires forall i :: 0 <= i < |topContributors| ==> keyContributors[i].commits == topContributors[i].1
    ensures CommitsOf(keyContributors) == CountSum(topContributors)
  {
    if topContributors != [] {
      CommitsOfKeyContributors(keyContributors[1..], topContributors[1..]);
    }
  }

  /** What dependency_risk reports about the ranked contributors: one key
      contributor per ranked entry, in order, with the risk level of its share; counts
      ordered bus factor >= high >= critical, at most one critical, three high and
      nine above 10% when the entries' commits are within the total; a critical
      overall risk exactly when some contributor holds more than half of the commits. */
  predicate RiskFacts(r: DependencyRisk, topContributors: seq<(AuthorKey, nat)>, total: int)
  {
    |r.keyContributors| == |topContributors| &&
    (forall i :: 0 <= i < |topContributors| ==>
      r.keyContributors[i] == KeyContributor(topContributors[i].0, topContributors[i].1, RiskLevelOf(topContributors[i].1, total))) &&
    r.criticalDependencyCount <= r.highDependencyCount <= r.busFactor &&
    (CountSum(topContributors) <= total ==>
      r.criticalDependencyCount <= 1 && r.highDependencyCount <= 3 && r.busFactor <= 9) &&
    (r.overallRisk == Critical <==>
       exists i :: 0 <= i < |r.keyContributors| && RoundedShareAbove(r.keyContributors[i].commits, total, 50)) &&
    (r.recommendations == [] <==> r.overallRisk in {Medium, Low} && r.busFactor >= 2)
  }

  /** `dependency_risk`: the key contributors in ranking order, each with the risk
      level of its share of `totalContributions`, and the figures derived from them. */
  method AssessDependencyRisk(topContributors: seq<(AuthorKey, nat)>, totalContributions: int)
    returns (risk: DependencyRisk)
    ensures risk == RiskOf(KeyContributorsOf(topContributors, totalContributions), totalContributions)
    ensures RiskFacts(risk, topContributors, totalContributions)
  {
    var keyContributors := KeyContributors(topContributors, totalContributions);
    var busFactor := BusFactor(keyContributors, totalContributions);
    var critical := CriticalDependency(keyContributors, totalContributions);
    var high := HighDependency(keyContributors, totalContributions);
    risk := DependencyRisk(keyContributors, busFactor, critical, high,
                           OverallRisk(critical, high, busFactor), Recommendations(critical, high, busFactor));
    DependencyRiskFacts(topContributors, totalContributions);
  }

  lemma DependencyRiskFacts(topContributors: seq<(AuthorKey, nat)>, totalContributions: int)
    ensures RiskFacts(RiskOf(KeyContributorsOf(topContributors, totalContributions), totalContributions),
                      topContributors, totalContributions)
  {
    var keyContributors := KeyContributorsOf(topContributors, totalContributions);
    CommitsOfKeyContributors(keyContributors, topContributors);
    DependencyCountsOrdered(keyContributors, totalContributions);
    if CountSum(topContributors) <= totalContributions {
      DependencyCountsBounded(keyContributors, totalContributions);
    }
    RiskAssessmentMeaning(keyContributors, totalContributions);
  }

  // ---------------------------------------------------------------------------
  // Pull requests
  // ---------------------------------------------------------------------------


  /** Tallying no names gives an empty table, and some names a non-empty one. */
  lemma TallyEmpty<K>(keys: seq<K>)
    ensures Tally(keys) == [] <==> keys == []
  {
    if keys != [] {
      TallyKeys(keys);
      assert keys[0] in KeysOf(Tally(keys));
    }
  }

  lemma DistinctQuarters(table: QuarterTable)
    requires DistinctKeys(table)
    ensures forall i, j :: 0 <= i < j < |KeysOf(table)| ==> KeysOf(table)[i] != KeysOf(table)[j]
  {
  }

  /** On a table without pull requests, the pull-request loop leaves in each quarter
      the number of pull requests dated in it. */
  lemma CountedPrs(prs: seq<PullRecord>, quarterlyData: QuarterTable, updated: QuarterTable, now: DateTime,
                   parse: string -> Option<DateTime>)
    requires NoPrsCounted(quarterlyData) && |updated| == |quarterlyData|
    requires forall i :: 0 <= i < |quarterlyData| ==>
      updated[i] == (quarterlyData[i].0, WithPrs(quarterlyData[i].1, prs, quarterlyData[i].0, now, parse))
    ensures forall i :: 0 <= i < |KeysOf(quarterlyData)| ==>
      updated[i].1.prCount == |Filter(prs, PrInQuarter(KeysOf(quarterlyData)[i], now, parse))|
  {
  }

  /** A filter that keeps nothing gives the empty sequence. */
  lemma FilterNone<T>(s: seq<T>, p: T -> bool)
    requires forall i :: 0 <= i < |s| ==> !p(s[i])
    ensures Filter(s, p) == []
  {
    if Filter(s, p) != [] {
      assert Filter(s, p)[0] in Filter(s, p);
      assert false;
    }
  }

  /** What the workflow analysis reports: trends that belong to the quarterly
      activity shown with them. With pull requests, the authors are the five most
      active of them and the quarters add up to at most their number; with commits
      only, the estimates stand in; with neither, only the placeholder author is shown. */
  predicate WorkflowFacts(w: WorkflowAnalysis, prs: seq<PullRecord>, authorCommits: seq<(AuthorKey, nat)>)
  {
    Consistent(w) &&
    (prs != [] ==>
       w.quarterlyTrends.totalQuarterlyPrs <= |prs| &&
       w.mostActiveAuthors == TopOf(Tally(SeqMap(PrAuthor, prs)), 5)) &&
    (prs == [] && authorCommits != [] ==>
       w.mostActiveAuthors == TopOf(SeqMap(EstimatedAuthor, TopOf(authorCommits, 8)), 5) &&
       forall e :: e in w.quarterlyActivity ==> 1 <= e.1.prs && e.1.merged <= e.1.prs && e.1.mergeRate == 85.0) &&
    (prs == [] && authorCommits == [] ==> w.mostActiveAuthors == [(NoDataAvailable, 0)] && w.quarterlyActivity == [])
  }

  /** The workflow analysis on the table the commit loop left: the pull requests are
      counted into that table, and with commits but no pull requests the estimates
      stand in for the authors and the quarterly activity; otherwise the workflow
      shows the pull-request authors and the quarters the pull requests fell in. */
  function WorkflowAnalysisOf(prs: seq<PullRecord>, authorCommits: seq<(AuthorKey, nat)>, quarterlyData: QuarterTable,
                              now: DateTime, parse: string -> Option<DateTime>): WorkflowAnalysis
  {
    var updated := TableWithPrs(quarterlyData, prs, now, parse);
    if prs == [] && authorCommits != [] then
      WorkflowOf(SeqMap(EstimatedAuthor, TopOf(authorCommits, 8)), SeqMap(EstimatedEntry, Filter(updated, HasCommits)))
    else
      WorkflowOf(Tally(SeqMap(PrAuthor, prs)), SeqMap(ActivityEntry, Filter(updated, HasPrs)))
  }

  /** The workflow analysis meets the workflow facts. */
  lemma WorkflowAnalysisFacts(prs: seq<PullRecord>, authorCommits: seq<(AuthorKey, nat)>, quarterlyData: QuarterTable,
                              now: DateTime, parse: string -> Option<DateTime>)
    requires DistinctKeys(quarterlyData) && NoPrsCounted(quarterlyData)
    ensures WorkflowFacts(WorkflowAnalysisOf(prs, authorCommits, quarterlyData, now, parse), prs, authorCommits)
  {
    var updated := TableWithPrs(quarterlyData, prs, now, parse);
    if prs == [] && authorCommits != [] {
      EstimatedWorkflow(prs, authorCommits, updated);
    } else if prs != [] {
      CountedBound(prs, quarterlyData, updated, now, parse);
      AuthorsWorkflow(prs, authorCommits, SeqMap(ActivityEntry, Filter(updated, HasPrs)));
    } else {
      TallyEmpty(SeqMap(PrAuthor, prs));
      EmptyWorkflow(prs, authorCommits, quarterlyData, updated, now, parse);
    }
  }

  /** The pull-request loop, the quarterly activity (or, with commits but no pull
      requests, the estimates that stand in for it) and the workflow analysis, on the
      table as the commit loop leaves it (no pull request counted yet). */
  method PullRequestWorkflow(prs: seq<PullRecord>, authorCommits: seq<(AuthorKey, nat)>, quarterlyData: QuarterTable,
                             now: DateTime, parse: string -> Option<DateTime>)
    returns (workflow: WorkflowAnalysis)
    requires DistinctKeys(quarterlyData) && NoPrsCounted(quarterlyData)
    ensures workflow == WorkflowAnalysisOf(prs, authorCommits, quarterlyData, now, parse)
    ensures WorkflowFacts(workflow, prs, authorCommits)
  {
    var prAuthors, updated := CountPullRequests(prs, quarterlyData, now, parse);
    TallyEmpty(SeqMap(PrAuthor, prs));
    var quarterlyPrActivity := QuarterlyPrActivity(updated);
    if prAuthors == [] && authorCommits != [] {
      prAuthors := EstimatePrAuthors(authorCommits);
      quarterlyPrActivity := EstimateQuarterlyActivity(updated);
    }
    workflow := WorkflowOf(prAuthors, quarterlyPrActivity);
    WorkflowAnalysisFacts(prs, authorCommits, quarterlyData, now, parse);
  }

  /** With commits but no pull requests, the workflow shows the estimates. */
  lemma EstimatedWorkflow(prs: seq<PullRecord>, authorCommits: seq<(AuthorKey, nat)>, table: QuarterTable)
    requires prs == [] && authorCommits != []
    ensures WorkflowFacts(WorkflowOf(SeqMap(EstimatedAuthor, TopOf(authorCommits, 8)),
                                     SeqMap(EstimatedEntry, Filter(table, HasCommits))), prs, authorCommits)
  {
    RankLength(authorCommits);
    EstimatedActivityMeaning(table);
  }

  /** The quarters of the pull-request loop hold at most as many pull requests as there are. */
  lemma CountedBound(prs: seq<PullRecord>, quarterlyData: QuarterTable, updated: QuarterTable, now: DateTime,
                     parse: string -> Option<DateTime>)
    requires DistinctKeys(quarterlyData) && NoPrsCounted(quarterlyData)
    requires |updated| == |quarterlyData|
    requires forall i :: 0 <= i < |quarterlyData| ==>
      updated[i] == (quarterlyData[i].0, WithPrs(quarterlyData[i].1, prs, quarterlyData[i].0, now, parse))
    ensures TrendsOf(SeqMap(ActivityEntry, Filter(updated, HasPrs))).totalQuarterlyPrs <= |prs|
  {
    DistinctQuarters(quarterlyData);
    CountedPrs(prs, quarterlyData, updated, now, parse);
    QuarterlyPrsBounded(prs, KeysOf(quarterlyData), now, parse, updated);
  }

  /** Given quarterly activity within the number of pull requests, the workflow names
      the most active of their authors. */
  lemma AuthorsWorkflow(prs: seq<PullRecord>, authorCommits: seq<(AuthorKey, nat)>, activity: ActivityTable)
    requires prs != [] && TrendsOf(activity).totalQuarterlyPrs <= |prs|
    ensures WorkflowFacts(WorkflowOf(Tally(SeqMap(PrAuthor, prs)), activity), prs, authorCommits)
  {
    TallyEmpty(SeqMap(PrAuthor, prs));
  }

  /** With neither commits nor pull requests, the workflow shows only the placeholder. */
  lemma EmptyWorkflow(prs: seq<PullRecord>, authorCommits: seq<(AuthorKey, nat)>, quarterlyData: QuarterTable,
                      updated: QuarterTable, now: DateTime, parse: string -> Option<DateTime>)
    requires prs == [] && authorCommits == [] && NoPrsCounted(quarterlyData)
    requires |updated| == |quarterlyData|
    requires forall i :: 0 <= i < |quarterlyData| ==>
      updated[i] == (quarterlyData[i].0, WithPrs(quarterlyData[i].1, prs, quarterlyData[i].0, now, parse))
    ensures WorkflowFacts(WorkflowOf([], SeqMap(ActivityEntry, Filter(updated, HasPrs))), prs, authorCommits)
  {
    FilterNone(updated, HasPrs);
  }

  /** What pr_analysis reports: counts that partition the pull requests, a merge rate
      that is a percentage, and the workflow analysis above. */
  predicate PullRequestFacts(p: PrAnalysis, prs: seq<PullRecord>, authorCommits: seq<(AuthorKey, nat)>)
  {
    p.totalPrs == |prs| && p.mergedPrs == MergedCount(prs) &&
    p.mergedPrs + p.closedPrs <= p.totalPrs && p.openPrs + p.closedPrs <= p.totalPrs &&
    0.0 <= p.mergeRate <= 100.0 &&
    WorkflowFacts(p.workflowAnalysis, prs, authorCommits)
  }

  /** The pull-request part of analyze_repository_data: the workflow analysis and
      the statistics. */
  method AnalyzePullRequests(prs: seq<PullRecord>, authorCommits: seq<(AuthorKey, nat)>, quarterlyData: QuarterTable,
                             now: DateTime, parse: string -> Option<DateTime>)
    returns (prAnalysis: PrAnalysis)
    requires DistinctKeys(quarterlyData) && NoPrsCounted(quarterlyData)
    ensures prAnalysis == PrStats(prs, WorkflowAnalysisOf(prs, authorCommits, quarterlyData, now, parse))
    ensures PullRequestFacts(prAnalysis, prs, authorCommits)
  {
    var workflow := PullRequestWorkflow(prs, authorCommits, quarterlyData, now, parse);
    prAnalysis := PrStats(prs, workflow);
    PrStatsMeaning(prs, workflow);
  }

  // ---------------------------------------------------------------------------
  // The whole analysis
  // ---------------------------------------------------------------------------

  /** The table the commit loop leaves: each quarter with the commits dated in it. */
  function CommitTableOf(commits: seq<CommitRecord>, quarters: seq<Label>, now: DateTime,
                         parse: string -> Option<DateTime>): QuarterTable
  {
    seq(|quarters|, i requires 0 <= i < |quarters| => (quarters[i], QuarterFromCommits(commits, quarters[i], now, parse)))
  }

  /** The table as the commit loop over the last four quarters leaves it. */
  predicate CommitLoopFacts(table: QuarterTable, commits: seq<CommitRecord>, quarters: seq<Label>, now: DateTime,
                            parse: string -> Option<DateTime>)
  {
    (forall i, j :: 0 <= i < j < |quarters| ==> quarters[i] != quarters[j]) &&
    CommitTable(table, commits, quarters, now, parse) &&
    DistinctKeys(table) && NoPrsCounted(table)
  }

  /** The table of the last year's quarters holds the four quarters, newest first, and
      meets the commit-loop facts. */
  lemma LastYearTableFacts(commits: seq<CommitRecord>, now: DateTime, parse: string -> Option<DateTime>)
    ensures var quarters := LastYearQuarters(now);
      var table := CommitTableOf(commits, quarters, now, parse);
      |table| == 4 && KeysOf(table) == quarters && quarters[0] == CurrentQuarter(now) &&
      (forall i :: 0 <= i < 4 ==> QuarterIndex(quarters[i]) == QuarterIndex(CurrentQuarter(now)) - i) &&
      CommitLoopFacts(table, commits, quarters, now, parse)
  {
    var quarters := LastYearQuarters(now);
    var table := CommitTableOf(commits, quarters, now, parse);
    QuartersBackMeaning(CurrentQuarter(now), 4);
    QuarterIndexInjective(quarters[0], CurrentQuarter(now));
    assert KeysOf(table) == quarters;
    CommitTableHasNoPrs(table, commits, quarters, now, parse);
  }

  /** get_quarters_last_year and the commit loop: every commit counted under its
      author, and in the one quarter of the last year its date falls in. */
  method CountCommitsByQuarter(commits: seq<CommitRecord>, now: DateTime, parse: string -> Option<DateTime>)
    returns (authorCommits: seq<(AuthorKey, nat)>, quarterlyData: QuarterTable)
    ensures authorCommits == Tally(SeqMap(AuthorName, commits))
    ensures quarterlyData == CommitTableOf(commits, LastYearQuarters(now), now, parse)
    ensures |quarterlyData| == 4 && quarterlyData[0].0 == CurrentQuarter(now)
    ensures forall i :: 0 <= i < 4 ==> QuarterIndex(quarterlyData[i].0) == QuarterIndex(CurrentQuarter(now)) - i
    ensures CommitLoopFacts(quarterlyData, commits, LastYearQuarters(now), now, parse)
  {
    var lastYear := QuartersLastYear(now);
    authorCommits, quarterlyData := CountCommits(commits, lastYear, now, parse);
    assert forall i :: 0 <= i < |lastYear| ==> quarterlyData[i].0 == KeysOf(quarterlyData)[i];
    LastYearTableFacts(commits, now, parse);
  }

  /** What quarterly_insights reports when its summary is taken before the pull
      requests are counted: no shown quarter has a pull request, the year-over-year
      pull-request total is 0 whenever a quarter is shown and the full count
      otherwise, and the totals stay within the commits and the authors. */
  predicate InsightsFacts(ins: QuarterlyInsights, commits: seq<CommitRecord>, prs: seq<PullRecord>,
                          uniqueContributors: nat)
  {
    (forall i :: 0 <= i < |ins.quarters| ==>
      ins.quarters[i].1.totalPrs == 0 && ins.quarters[i].1.mergedPrs == 0 &&
      ins.quarters[i].1.mergeRate == 0.0 && ins.quarters[i].1.commits > 0) &&
    (ins.quarters != [] ==> ins.yearOverYear.totalPrs == 0 && ins.yearOverYear.overallMergeRate == 0.0) &&
    (ins.quarters == [] ==> ins.yearOverYear.totalPrs == |prs| && ins.trends.growthTrajectory == InsufficientData) &&
    ins.yearOverYear.totalCommits <= |commits| &&
    ins.yearOverYear.totalContributors <= uniqueContributors
  }

  /** quarterly_insights: the insights over the summary rows of the active quarters. */
  function InsightsOf(quarterlyData: QuarterTable, commits: seq<CommitRecord>, authorCommits: seq<(AuthorKey, nat)>,
                      prs: seq<PullRecord>): QuarterlyInsights
  {
    Insights(Filter(SeqMap(SummaryEntry, quarterlyData), IsActive), quarterlyData, commits, authorCommits, prs)
  }

  /** The year-over-year totals of the shown quarters count the commits dated in the
      quarters and their distinct authors; no quarter is shown exactly when no commit
      is dated in them. */
  predicate DatedTotals(ins: QuarterlyInsights, commits: seq<CommitRecord>, quarters: seq<Label>, now: DateTime,
                        parse: string -> Option<DateTime>)
  {
    var dated := DatedCommits(commits, quarters, now, parse);
    (ins.quarters == [] <==> dated == []) &&
    (ins.quarters != [] ==>
      ins.yearOverYear.totalCommits == |dated| &&
      ins.yearOverYear.totalContributors == |set k | k in SeqMap(AuthorName, dated)|)
  }

  lemma InsightsOfFacts(quarterlyData: QuarterTable, commits: seq<CommitRecord>, authorCommits: seq<(AuthorKey, nat)>,
                        prs: seq<PullRecord>, quarters: seq<Label>, now: DateTime, parse: string -> Option<DateTime>)
    requires authorCommits == Tally(SeqMap(AuthorName, commits))
    requires CommitLoopFacts(quarterlyData, commits, quarters, now, parse)
    ensures InsightsFacts(InsightsOf(quarterlyData, commits, authorCommits, prs), commits, prs, |authorCommits|)
    ensures DatedTotals(InsightsOf(quarterlyData, commits, authorCommits, prs), commits, quarters, now, parse)
  {
    InsightsTotals(quarterlyData, commits, quarters, now, parse, prs);
    var quarterlySummary := Filter(SeqMap(SummaryEntry, quarterlyData), IsActive);
    SummaryMissesPullRequests(quarterlyData, commits, authorCommits, prs, quarterlySummary);
    YearOverYearBounded(quarterlyData, commits, quarters, now, parse, prs);
  }

  /** The quarterly summary and insights, taken from the table the commit loop left. */
  method QuarterlyInsightsOf(quarterlyData: QuarterTable, commits: seq<CommitRecord>,
                             authorCommits: seq<(AuthorKey, nat)>, prs: seq<PullRecord>,
                             ghost quarters: seq<Label>, ghost now: DateTime, ghost parse: string -> Option<DateTime>)
    returns (insights: QuarterlyInsights)
    requires authorCommits == Tally(SeqMap(AuthorName, commits))
    requires CommitLoopFacts(quarterlyData, commits, quarters, now, parse)
    ensures insights == InsightsOf(quarterlyData, commits, authorCommits, prs)
    ensures InsightsFacts(insights, commits, prs, |authorCommits|)
    ensures DatedTotals(insights, commits, quarters, now, parse)
  {
    var quarterlySummary := SummarizeQuarters(quarterlyData);
    insights := Insights(quarterlySummary, quarterlyData, commits, authorCommits, prs);
    InsightsOfFacts(quarterlyData, commits, authorCommits, prs, quarters, now, parse);
  }

  /** analyze_repository_data on already filtered commits and pull requests: the
      ownership figures from the author tally, the insights from the last year's
      quarters before any pull request is counted, the dependency risk from the
      ranking, and the pull-request statistics with the workflow on that table. */
  function AnalysisOf(commits: seq<CommitRecord>, prs: seq<PullRecord>, now: DateTime,
                      parse: string -> Option<DateTime>): RepositoryAnalysis
  {
    var authorCommits := Tally(SeqMap(AuthorName, commits));
    var quarterlyData := CommitTableOf(commits, LastYearQuarters(now), now, parse);
    var ownership := OwnershipOf(authorCommits, |commits|);
    var totalContributions := CountSum(authorCommits);
    RepositoryAnalysis(
      ownership,
      InsightsOf(quarterlyData, commits, authorCommits, prs),
      RiskOf(KeyContributorsOf(ownership.topContributors, totalContributions), totalContributions),
      PrStats(prs, WorkflowAnalysisOf(prs, authorCommits, quarterlyData, now, parse)))
  }

  /** What the analysis reports. Each figure is taken from the per-author tally of the
      commits; the total of that tally is the number of commits and its length the
      number of distinct authors. */
  predicate AnalysisFacts(analysis: RepositoryAnalysis, commits: seq<CommitRecord>, prs: seq<PullRecord>)
  {
    var authorCommits := Tally(SeqMap(AuthorName, commits));
    CountSum(authorCommits) == |commits| &&
    |authorCommits| == |set k | k in SeqMap(AuthorName, commits)| &&
    (authorCommits == [] <==> commits == []) &&
    OwnershipFacts(analysis.codeOwnership, authorCommits, |commits|) &&
    InsightsFacts(analysis.quarterlyInsights, commits, prs, |authorCommits|) &&
    RiskFacts(analysis.dependencyRisk, analysis.codeOwnership.topContributors, |commits|) &&
    PullRequestFacts(analysis.pullRequestAnalysis, prs, authorCommits)
  }

  lemma AnalysisOfFacts(commits: seq<CommitRecord>, prs: seq<PullRecord>, now: DateTime,
                        parse: string -> Option<DateTime>)
    ensures AnalysisFacts(AnalysisOf(commits, prs, now, parse), commits, prs)
    ensures DatedTotals(AnalysisOf(commits, prs, now, parse).quarterlyInsights, commits, LastYearQuarters(now), now, parse)
  {
    var names := SeqMap(AuthorName, commits);
    var authorCommits := Tally(names);
    var quarters := LastYearQuarters(now);
    var quarterlyData := CommitTableOf(commits, quarters, now, parse);
    var ownership := OwnershipOf(authorCommits, |commits|);
    var workflow := WorkflowAnalysisOf(prs, authorCommits, quarterlyData, now, parse);
    TallySum(names);
    TallySize(names);
    TallyEmpty(names);
    LastYearTableFacts(commits, now, parse);
    OwnershipOfFacts(authorCommits, |commits|);
    InsightsOfFacts(quarterlyData, commits, authorCommits, prs, quarters, now, parse);
    DependencyRiskFacts(ownership.topContributors, CountSum(authorCommits));
    WorkflowAnalysisFacts(prs, authorCommits, quarterlyData, now, parse);
    PrStatsMeaning(prs, workflow);
  }

  /** analyze_repository_data on commits and pull requests that are already
      filtered, `now` standing for the clock the 550-day cutoff is measured from and
      `parse` for the ISO date parser. */
  method AnalyzeRepositoryData(commits: seq<CommitRecord>, prs: seq<PullRecord>, now: DateTime,
                               parse: string -> Option<DateTime>)
    returns (analysis: RepositoryAnalysis)
    ensures analysis == AnalysisOf(commits, prs, now, parse)
    ensures AnalysisFacts(analysis, commits, prs)
    ensures DatedTotals(analysis.quarterlyInsights, commits, LastYearQuarters(now), now, parse)
  {
    var authorCommits, quarterlyData := CountCommitsByQuarter(commits, now, parse);
    var ownership := CodeOwnershipOf(authorCommits, |commits|);
    var insights := QuarterlyInsightsOf(quarterlyData, commits, authorCommits, prs, LastYearQuarters(now), now, parse);
    var totalContributions := CountSum(authorCommits);
    var risk := AssessDependencyRisk(ownership.topContributors, totalContributions);
    var prAnalysis := AnalyzePullRequests(prs, authorCommits, quarterlyData, now, parse);

    analysis := RepositoryAnalysis(ownership, insights, risk, prAnalysis);
    AnalysisOfFacts(commits, prs, now, parse);
  }
}
