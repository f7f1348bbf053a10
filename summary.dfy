/** The quarterly summary and quarterly insights of analyze_repository_data
    (backend/app/github.py): one row per quarter with activity, the year-over-year
    totals, the most productive quarter and the growth trajectory. Rates, averages
    and velocities are exact rationals; the source rounds them to one decimal. */
module Summary {
  import opened Common
  import opened Calendar
  import opened Counting
  import opened Ownership
  import opened Activity

  // ---------------------------------------------------------------------------
  // Rows
  // ---------------------------------------------------------------------------

  /** An entry of `quarterly_summary`. */
  datatype SummaryRow = SummaryRow(
    commits: nat,
    activeContributors: nat,
    totalPrs: nat,
    mergedPrs: nat,
    mergeRate: real,
    topContributors: seq<(AuthorKey, nat)>,
    velocityScore: real)

  type SummaryTable = seq<(Label, SummaryRow)>

  /** Merged pull requests as a percentage of all, 0 when there are none. */
  function MergeRate(merged: nat, total: nat): (r: real)
    ensures total == 0 ==> r == 0.0
    ensures total > 0 ==> r * total as real == 100.0 * merged as real
    ensures merged <= total ==> 0.0 <= r <= 100.0
  {
    if total > 0 then merged as real / total as real * 100.0 else 0.0
  }

  /** `merged / max(total, 1) * 100`: the merge rate, computed without a zero test. */
  function OverallRate(merged: nat, total: nat): (r: real)
    ensures total > 0 ==> r == MergeRate(merged, total)
    ensures merged == 0 ==> r == 0.0
    ensures merged <= total ==> 0.0 <= r <= 100.0
  {
    merged as real / Max(total, 1) as real * 100.0
  }

  /** Commits per contributor, 0 without contributors. */
  function Velocity(commits: nat, contributors: nat): (r: real)
    ensures contributors == 0 ==> r == 0.0
    ensures contributors > 0 ==> r * contributors as real == commits as real
  {
    if contributors > 0 then commits as real / contributors as real else 0.0
  }

  /** The row built from a quarter's entry. */
  function SummaryOf(data: QuarterData): SummaryRow
  {
    SummaryRow(data.commits, |data.contributors|, data.prCount, data.mergedPrs,
               MergeRate(data.mergedPrs, data.prCount), TopOf(data.authorCommits, 3),
               Velocity(data.commits, |data.contributors|))
  }

  function SummaryEntry(entry: (Label, QuarterData)): (Label, SummaryRow)
  {
    (entry.0, SummaryOf(entry.1))
  }

  /** Only quarters with commits or pull requests are shown. */
  predicate IsActive(entry: (Label, SummaryRow))
  {
    entry.1.commits > 0 || entry.1.totalPrs > 0
  }

  /** The two passes over `quarterly_data`: one row per quarter, in the table's order,
      then the comprehension that keeps the active ones. */
  method SummarizeQuarters(quarterlyData: QuarterTable) returns (quarterlySummary: SummaryTable)
    ensures quarterlySummary == Filter(SeqMap(SummaryEntry, quarterlyData), IsActive)
  {
    var actualQuarterlySummary: SummaryTable := [];
    for i := 0 to |quarterlyData|
      invariant |actualQuarterlySummary| == i
      invariant forall j :: 0 <= j < i ==> actualQuarterlySummary[j] == SummaryEntry(quarterlyData[j])
    {
      var row := SummarizeQuarter(quarterlyData[i].1);
      actualQuarterlySummary := actualQuarterlySummary + [(quarterlyData[i].0, row)];
    }
    assert actualQuarterlySummary == SeqMap(SummaryEntry, quarterlyData);
    quarterlySummary := Filter(actualQuarterlySummary, IsActive);
  }

  /** The body of the first pass: one quarter's row. */
  method SummarizeQuarter(data: QuarterData) returns (row: SummaryRow)
    ensures row == SummaryOf(data)
  {
    var mergeRate := MergeRate(data.mergedPrs, data.prCount);
    var velocity := Velocity(data.commits, |data.contributors|);
    var quarterTopContributors := TopOf(data.authorCommits, 3);
    row := SummaryRow(data.commits, |data.contributors|, data.prCount, data.mergedPrs, mergeRate,
                      quarterTopContributors, velocity);
  }

  /** A quarter has a row exactly when its entry has commits or pull requests, and
      the row is built from that entry. */
  lemma {:induction false} SummaryMembership(quarterlyData: QuarterTable, q: Label, row: SummaryRow)
    ensures (q, row) in Filter(SeqMap(SummaryEntry, quarterlyData), IsActive) <==>
      exists i :: 0 <= i < |quarterlyData| && quarterlyData[i].0 == q && row == SummaryOf(quarterlyData[i].1) &&
        (quarterlyData[i].1.commits > 0 || quarterlyData[i].1.prCount > 0)
  {
    var rows := SeqMap(SummaryEntry, quarterlyData);
    if (q, row) in Filter(rows, IsActive) {
      var i :| 0 <= i < |rows| && rows[i] == (q, row);
      assert quarterlyData[i].0 == q && row == SummaryOf(quarterlyData[i].1);
    }
    if exists i :: 0 <= i < |quarterlyData| && quarterlyData[i].0 == q && row == SummaryOf(quarterlyData[i].1) &&
        (quarterlyData[i].1.commits > 0 || quarterlyData[i].1.prCount > 0) {
      var i :| 0 <= i < |quarterlyData| && quarterlyData[i].0 == q && row == SummaryOf(quarterlyData[i].1) &&
        (quarterlyData[i].1.commits > 0 || quarterlyData[i].1.prCount > 0);
      assert rows[i] == (q, row);
    }
  }

  /** A row's top contributors are its quarter's three largest per-author counts, and
      its merge rate is a percentage when merged pull requests are among all of them. */
  lemma {:induction false} SummaryRowMeaning(data: QuarterData)
    requires data.mergedPrs <= data.prCount
    ensures var row := SummaryOf(data);
      0.0 <= row.mergeRate <= 100.0 &&
      |row.topContributors| == Min(3, |data.authorCommits|) &&
      RankedByCount(row.topContributors) &&
      multiset(row.topContributors) <= multiset(data.authorCommits) &&
      forall x, y :: x in data.authorCommits && x !in row.topContributors && y in row.topContributors ==> x.1 <= y.1
  {
    TopOfLargest(data.authorCommits, 3);
  }

  // ---------------------------------------------------------------------------
  // Sums over rows
  // ---------------------------------------------------------------------------

  function RowCommits(row: SummaryRow): nat { row.commits }
  function RowPrs(row: SummaryRow): nat { row.totalPrs }
  function RowMerged(row: SummaryRow): nat { row.mergedPrs }

  /** `sum(f(q) for q in rows)`. */
  function SumOver(rows: SummaryTable, f: SummaryRow -> nat): nat
  {
    if rows == [] then 0 else f(rows[0].1) + SumOver(rows[1..], f)
  }

  function SumVelocity(rows: SummaryTable): real
  {
    if rows == [] then 0.0 else rows[0].1.velocityScore + SumVelocity(rows[1..])
  }

  /** Dropping the inactive rows does not change the commit total. */
  lemma {:induction false} ActiveCommitsSum(rows: SummaryTable)
    ensures SumOver(Filter(rows, IsActive), RowCommits) == SumOver(rows, RowCommits)
  {
    if rows != [] {
      ActiveCommitsSum(rows[1..]);
      if IsActive(rows[0]) {
        assert Filter(rows, IsActive) == [rows[0]] + Filter(rows[1..], IsActive);
      } else {
        assert Filter(rows, IsActive) == Filter(rows[1..], IsActive);
      }
    }
  }

  /** Every row of a table whose pull-request counts are all zero has zero pull
      requests. */
  lemma {:induction false} NoPrsSum(rows: SummaryTable)
    requires forall i :: 0 <= i < |rows| ==> rows[i].1.totalPrs == 0 && rows[i].1.mergedPrs == 0
    ensures SumOver(rows, RowPrs) == 0 && SumOver(rows, RowMerged) == 0
  {
    if rows != [] {
      assert forall i :: 0 <= i < |rows[1..]| ==> rows[1..][i] == rows[i + 1];
      NoPrsSum(rows[1..]);
    }
  }

  /** The rows built from the commit loop's table add up to the commits counted per
      quarter. */
  lemma {:induction false} RowCommitsCounted(commits: seq<CommitRecord>, quarters: seq<Label>, now: DateTime,
                                             parse: string -> Option<DateTime>, table: QuarterTable)
    requires |table| == |quarters|
    requires forall i :: 0 <= i < |quarters| ==>
      table[i].1.commits == |Filter(commits, CommitInQuarter(quarters[i], now, parse))|
    ensures SumOver(SeqMap(SummaryEntry, table), RowCommits) == CountedPerQuarter(commits, CommitDate, quarters, now, parse)
  {
    if quarters != [] {
      assert forall i :: 0 <= i < |quarters[1..]| ==> quarters[1..][i] == quarters[i + 1] && table[1..][i] == table[i + 1];
      RowCommitsCounted(commits, quarters[1..], now, parse, table[1..]);
      assert SeqMap(SummaryEntry, table)[1..] == SeqMap(SummaryEntry, table[1..]);
    }
  }

  /** The union of every quarter's contributors. */
  function AllContributors(table: QuarterTable): set<AuthorKey>
  {
    if table == [] then {} else table[0].1.contributors + AllContributors(table[1..])
  }

  lemma {:induction false} AllContributorsMeaning(table: QuarterTable, k: AuthorKey)
    ensures k in AllContributors(table) <==> exists i :: 0 <= i < |table| && k in table[i].1.contributors
  {
    if table != [] {
      AllContributorsMeaning(table[1..], k);
      if exists i :: 0 <= i < |table[1..]| && k in table[1..][i].1.contributors {
        var i :| 0 <= i < |table[1..]| && k in table[1..][i].1.contributors;
        assert table[i + 1] == table[1..][i];
      }
      if exists i :: 0 <= i < |table| && k in table[i].1.contributors {
        var i :| 0 <= i < |table| && k in table[i].1.contributors;
        if i > 0 {
          assert table[1..][i - 1] == table[i];
        }
      }
    }
  }

  // ---------------------------------------------------------------------------
  // Insights
  // ---------------------------------------------------------------------------

  datatype Growth = Growing | Declining | Stable | InsufficientData

  datatype YearOverYear = YearOverYear(
    totalCommits: nat,
    totalContributors: nat,
    totalPrs: nat,
    overallMergeRate: real,
    avgQuarterlyVelocity: real)

  datatype Trends = Trends(
    mostProductiveQuarter: Option<(Label, SummaryRow)>,
    highestMergeRateQuarter: Option<(Label, SummaryRow)>,
    growthTrajectory: Growth)

  datatype QuarterlyInsights = QuarterlyInsights(quarters: SummaryTable, yearOverYear: YearOverYear, trends: Trends)

  /** The growth trajectory: with at least four rows, the average commits of the first
      two rows against the average of the rest, growing above 110% and declining below
      90%; with fewer rows, stable. Written without division. */
  function GrowthOf(rows: SummaryTable): Growth
  {
    if |rows| >= 4 then
      var n := |rows|;
      var recent := rows[0].1.commits + rows[1].1.commits;
      var older := SumOver(rows[2..], RowCommits);
      if 10 * (n - 2) * recent > 22 * older then Growing
      else if 10 * (n - 2) * recent < 18 * older then Declining
      else Stable
    else Stable
  }

  /** The two averages of the growth comparison. */
  function RecentAverage(rows: SummaryTable): real
    requires |rows| >= 2
  {
    (rows[0].1.commits + rows[1].1.commits) as real / 2.0
  }

  function OlderAverage(rows: SummaryTable): real
    requires |rows| >= 4
  {
    SumOver(rows[2..], RowCommits) as real / (|rows| - 2) as real
  }

  lemma CrossMultiply(recent: nat, older: nat, n: nat, num: nat)
    requires n >= 1
    ensures (10 * n * recent > 2 * num * older) <==> recent as real / 2.0 > older as real / n as real * (num as real / 10.0)
    ensures (10 * n * recent < 2 * num * older) <==> recent as real / 2.0 < older as real / n as real * (num as real / 10.0)
  {
    var r := recent as real;
    var o := older as real;
    var m := n as real;
    assert r / 2.0 - o / m * (num as real / 10.0) == (10.0 * m * r - 2.0 * (num as real) * o) / (20.0 * m);
  }

  /** The growth trajectory is the comparison of the averages the source computes. */
  lemma {:induction false} GrowthMeaning(rows: SummaryTable)
    ensures |rows| < 4 ==> GrowthOf(rows) == Stable
    ensures |rows| >= 4 ==>
      (GrowthOf(rows) == Growing <==> RecentAverage(rows) > OlderAverage(rows) * 1.1) &&
      (GrowthOf(rows) == Declining <==> RecentAverage(rows) <= OlderAverage(rows) * 1.1 &&
                                        RecentAverage(rows) < OlderAverage(rows) * 0.9)
    ensures GrowthOf(rows) != InsufficientData
  {
    if |rows| >= 4 {
      var recent := rows[0].1.commits + rows[1].1.commits;
      var older := SumOver(rows[2..], RowCommits);
      CrossMultiply(recent, older, |rows| - 2, 11);
      CrossMultiply(recent, older, |rows| - 2, 9);
    }
  }

  function CommitsKey(entry: (Label, SummaryRow)): real
  {
    entry.1.commits as real
  }

  function MergeRateKey(entry: (Label, SummaryRow)): real
  {
    entry.1.mergeRate
  }

  function MergedCount(prs: seq<PullRecord>): nat
  {
    |Filter(prs, (pr: PullRecord) => pr.merged)|
  }

  /** `quarterly_insights`: built from the shown rows when there are any, and from the
      raw lists otherwise. */
  function Insights(quarterlySummary: SummaryTable, quarterlyData: QuarterTable, commits: seq<CommitRecord>,
                    authorCommits: seq<(AuthorKey, nat)>, prs: seq<PullRecord>): QuarterlyInsights
  {
    if quarterlySummary != [] then
      var totalPrs := SumOver(quarterlySummary, RowPrs);
      QuarterlyInsights(
        quarterlySummary,
        YearOverYear(
          SumOver(quarterlySummary, RowCommits),
          |AllContributors(quarterlyData)|,
          totalPrs,
          OverallRate(SumOver(quarterlySummary, RowMerged), totalPrs),
          SumVelocity(quarterlySummary) / |quarterlySummary| as real),
        Trends(
          Some(quarterlySummary[FirstMaxIndex(quarterlySummary, CommitsKey)]),
          Some(quarterlySummary[FirstMaxIndex(quarterlySummary, MergeRateKey)]),
          GrowthOf(quarterlySummary)))
    else
      QuarterlyInsights(
        [],
        YearOverYear(|commits|, |authorCommits|, |prs|, OverallRate(MergedCount(prs), |prs|), 0.0),
        Trends(None, None, InsufficientData))
  }

  /** The trends name the first shown quarter with the most commits and the first with
      the highest merge rate, as `max` picks them; without shown quarters there are none
      and the trajectory is "insufficient data". */
  lemma {:induction false} InsightsTrendsMeaning(quarterlySummary: SummaryTable, quarterlyData: QuarterTable, commits: seq<CommitRecord>,
                              authorCommits: seq<(AuthorKey, nat)>, prs: seq<PullRecord>)
    ensures var t := Insights(quarterlySummary, quarterlyData, commits, authorCommits, prs).trends;
      (quarterlySummary == [] <==> t.growthTrajectory == InsufficientData) &&
      (t.mostProductiveQuarter.Some? <==> quarterlySummary != []) &&
      (t.highestMergeRateQuarter.Some? <==> quarterlySummary != []) &&
      (t.mostProductiveQuarter.Some? ==>
        t.mostProductiveQuarter.value in quarterlySummary &&
        (forall e :: e in quarterlySummary ==> e.1.commits <= t.mostProductiveQuarter.value.1.commits) &&
        FirstMaximum(quarterlySummary, CommitsKey, t.mostProductiveQuarter.value)) &&
      (t.highestMergeRateQuarter.Some? ==>
        t.highestMergeRateQuarter.value in quarterlySummary &&
        (forall e :: e in quarterlySummary ==> e.1.mergeRate <= t.highestMergeRateQuarter.value.1.mergeRate) &&
        FirstMaximum(quarterlySummary, MergeRateKey, t.highestMergeRateQuarter.value))
  {
    GrowthMeaning(quarterlySummary);
    if quarterlySummary != [] {
      var m := FirstMaxIndex(quarterlySummary, CommitsKey);
      var h := FirstMaxIndex(quarterlySummary, MergeRateKey);
      forall e | e in quarterlySummary
        ensures e.1.commits <= quarterlySummary[m].1.commits && e.1.mergeRate <= quarterlySummary[h].1.mergeRate
      {
        var j :| 0 <= j < |quarterlySummary| && quarterlySummary[j] == e;
        assert CommitsKey(quarterlySummary[j]) <= CommitsKey(quarterlySummary[m]);
        assert MergeRateKey(quarterlySummary[j]) <= MergeRateKey(quarterlySummary[h]);
      }
      assert FirstMaximum(quarterlySummary, CommitsKey, quarterlySummary[m]);
      assert FirstMaximum(quarterlySummary, MergeRateKey, quarterlySummary[h]);
    }
  }

  // ---------------------------------------------------------------------------
  // The summary is taken before the pull requests are counted
  // ---------------------------------------------------------------------------

  /** The table as the commit loop leaves it. */
  predicate CommitTable(table: QuarterTable, commits: seq<CommitRecord>, quarters: seq<Label>, now: DateTime,
                        parse: string -> Option<DateTime>)
  {
    |table| == |quarters| &&
    forall i :: 0 <= i < |quarters| ==> table[i] == (quarters[i], QuarterFromCommits(commits, quarters[i], now, parse))
  }

  /** No entry of the table has a pull request counted yet. */
  predicate NoPrsCounted(table: QuarterTable)
  {
    forall i :: 0 <= i < |table| ==> table[i].1.prCount == 0 && table[i].1.mergedPrs == 0
  }

  lemma {:induction false} CommitTableHasNoPrs(table: QuarterTable, commits: seq<CommitRecord>, quarters: seq<Label>, now: DateTime,
                            parse: string -> Option<DateTime>)
    requires CommitTable(table, commits, quarters, now, parse)
    ensures NoPrsCounted(table)
  {
  }

  /** Rows of a table without pull requests: none reports any, and a row is shown
      only for a quarter with commits. */
  lemma {:induction false} RowsWithoutPrs(table: QuarterTable, summary: SummaryTable)
    requires NoPrsCounted(table) && summary == Filter(SeqMap(SummaryEntry, table), IsActive)
    ensures forall i :: 0 <= i < |summary| ==>
        summary[i].1.totalPrs == 0 && summary[i].1.mergedPrs == 0 && summary[i].1.mergeRate == 0.0 &&
        summary[i].1.commits > 0
  {
    var rows := SeqMap(SummaryEntry, table);
    forall i | 0 <= i < |summary|
      ensures summary[i].1.totalPrs == 0 && summary[i].1.mergedPrs == 0 && summary[i].1.mergeRate == 0.0 &&
        summary[i].1.commits > 0
    {
      assert summary[i] in summary;
      var j :| 0 <= j < |rows| && rows[j] == summary[i];
    }
  }

  /** The summary is built from the table before the pull-request loop fills in its
      pull-request counts (see CommitTableHasNoPrs), so every shown quarter reports no pull requests and a zero
      merge rate, only quarters with commits are shown, and the year-over-year totals
      report no pull requests whenever a quarter is shown. */
  lemma {:induction false} SummaryMissesPullRequests(table: QuarterTable, commits: seq<CommitRecord>,
                                                     authorCommits: seq<(AuthorKey, nat)>, prs: seq<PullRecord>,
                                                     summary: SummaryTable)
    requires NoPrsCounted(table)
    requires summary == Filter(SeqMap(SummaryEntry, table), IsActive)
    ensures forall i :: 0 <= i < |summary| ==>
      summary[i].1.totalPrs == 0 && summary[i].1.mergedPrs == 0 && summary[i].1.mergeRate == 0.0 &&
      summary[i].1.commits > 0
    ensures summary != [] ==>
      Insights(summary, table, commits, authorCommits, prs).yearOverYear.totalPrs == 0 &&
      Insights(summary, table, commits, authorCommits, prs).yearOverYear.overallMergeRate == 0.0
  {
    RowsWithoutPrs(table, summary);
    NoPrsSum(summary);
  }

  lemma FilteredNames(commits: seq<CommitRecord>, p: CommitRecord -> bool, k: AuthorKey)
    requires k in SeqMap(AuthorName, Filter(commits, p))
    ensures k in SeqMap(AuthorName, commits)
  {
    var kept := Filter(commits, p);
    var j :| 0 <= j < |kept| && SeqMap(AuthorName, kept)[j] == k;
    assert kept[j] in commits;
    var c :| 0 <= c < |commits| && commits[c] == kept[j];
    assert SeqMap(AuthorName, commits)[c] == k;
  }

  /** Each quarter's contributors are authors of the commits. */
  lemma {:induction false} ContributorsAreAuthors(table: QuarterTable, commits: seq<CommitRecord>, quarters: seq<Label>,
                                                  now: DateTime, parse: string -> Option<DateTime>)
    requires CommitTable(table, commits, quarters, now, parse)
    ensures AllContributors(table) <= (set x | x in SeqMap(AuthorName, commits))
  {
    forall k | k in AllContributors(table)
      ensures k in SeqMap(AuthorName, commits)
    {
      AllContributorsMeaning(table, k);
      var i :| 0 <= i < |table| && k in table[i].1.contributors;
      assert table[i].1 == QuarterFromCommits(commits, quarters[i], now, parse);
      FilteredNames(commits, CommitInQuarter(quarters[i], now, parse), k);
    }
  }

  /** No commit is counted in two quarters and no quarter counts an unknown author:
      the year-over-year totals never exceed the commits and the authors. */
  lemma {:induction false} YearOverYearBounded(table: QuarterTable, commits: seq<CommitRecord>, quarters: seq<Label>, now: DateTime,
                            parse: string -> Option<DateTime>, prs: seq<PullRecord>)
    requires forall i, j :: 0 <= i < j < |quarters| ==> quarters[i] != quarters[j]
    requires CommitTable(table, commits, quarters, now, parse)
    ensures var authorCommits := Tally(SeqMap(AuthorName, commits));
      var y := Insights(Filter(SeqMap(SummaryEntry, table), IsActive), table, commits, authorCommits, prs).yearOverYear;
      y.totalCommits <= |commits| && y.totalContributors <= |authorCommits|
  {
    var names := SeqMap(AuthorName, commits);
    var rows := SeqMap(SummaryEntry, table);
    ActiveCommitsSum(rows);
    RowCommitsCounted(commits, quarters, now, parse, table);
    CountedOnce(commits, CommitDate, quarters, now, parse);
    ContributorsAreAuthors(table, commits, quarters, now, parse);
    TallySize(names);
    SubsetCard(AllContributors(table), set x | x in names);
  }

  lemma SubsetCard<T>(a: set<T>, b: set<T>)
    requires a <= b
    ensures |a| <= |b|
  {
    assert b == a + (b - a);
  }

  /** The commits the loop counts in one of the quarters. */
  function DatedCommits(commits: seq<CommitRecord>, quarters: seq<Label>, now: DateTime,
                        parse: string -> Option<DateTime>): seq<CommitRecord>
  {
    Filter(commits, InSomeQuarter(CommitDate, quarters, now, parse))
  }

  lemma InQuarterIs(q: Label, now: DateTime, parse: string -> Option<DateTime>, c: CommitRecord)
    ensures CommitInQuarter(q, now, parse)(c) == CountsIn(c.date, q, now, parse)
  {
    assert ItemInQuarter(CommitDate, q, now, parse)(c) == CountsIn(CommitDate(c), q, now, parse);
  }

  lemma InSomeQuarterIs(quarters: seq<Label>, now: DateTime, parse: string -> Option<DateTime>, c: CommitRecord)
    ensures InSomeQuarter(CommitDate, quarters, now, parse)(c) == (Hits(c.date, quarters, now, parse) > 0)
  {
    assert InSomeQuarter(CommitDate, quarters, now, parse)(c) == (Hits(CommitDate(c), quarters, now, parse) > 0);
  }

  /** A quarter's contributors are the authors of the commits counted in it. */
  lemma QuarterContributors(table: QuarterTable, commits: seq<CommitRecord>, quarters: seq<Label>, now: DateTime,
                            parse: string -> Option<DateTime>, i: int, k: AuthorKey)
    requires CommitTable(table, commits, quarters, now, parse) && 0 <= i < |quarters|
    ensures k in table[i].1.contributors <==> k in SeqMap(AuthorName, Filter(commits, CommitInQuarter(quarters[i], now, parse)))
  {
    assert table[i].1 == QuarterOfNames(SeqMap(AuthorName, Filter(commits, CommitInQuarter(quarters[i], now, parse))));
  }

  /** A contributor of some quarter authored a commit dated in the quarters. */
  lemma ContributorIsDatedAuthor(table: QuarterTable, commits: seq<CommitRecord>, quarters: seq<Label>, now: DateTime,
                                 parse: string -> Option<DateTime>, i: int, k: AuthorKey)
    requires CommitTable(table, commits, quarters, now, parse) && 0 <= i < |quarters|
    requires k in table[i].1.contributors
    ensures k in SeqMap(AuthorName, DatedCommits(commits, quarters, now, parse))
  {
    var inQuarter := CommitInQuarter(quarters[i], now, parse);
    var some := InSomeQuarter(CommitDate, quarters, now, parse);
    QuarterContributors(table, commits, quarters, now, parse, i, k);
    MapFilterMembership(commits, inQuarter, AuthorName, k);
    var j :| 0 <= j < |commits| && inQuarter(commits[j]) && AuthorName(commits[j]) == k;
    InQuarterIs(quarters[i], now, parse, commits[j]);
    HitsMeaning(commits[j].date, quarters, now, parse);
    InSomeQuarterIs(quarters, now, parse, commits[j]);
    MapFilterMembership(commits, some, AuthorName, k);
  }

  /** The author of a commit dated in the quarters is a contributor of one of them. */
  lemma DatedAuthorIsContributor(table: QuarterTable, commits: seq<CommitRecord>, quarters: seq<Label>, now: DateTime,
                                 parse: string -> Option<DateTime>, k: AuthorKey)
    requires CommitTable(table, commits, quarters, now, parse)
    requires k in SeqMap(AuthorName, DatedCommits(commits, quarters, now, parse))
    ensures k in AllContributors(table)
  {
    var some := InSomeQuarter(CommitDate, quarters, now, parse);
    MapFilterMembership(commits, some, AuthorName, k);
    var j :| 0 <= j < |commits| && some(commits[j]) && AuthorName(commits[j]) == k;
    InSomeQuarterIs(quarters, now, parse, commits[j]);
    HitsMeaning(commits[j].date, quarters, now, parse);
    var i :| 0 <= i < |quarters| && CountsIn(commits[j].date, quarters[i], now, parse);
    InQuarterIs(quarters[i], now, parse, commits[j]);
    MapFilterMembership(commits, CommitInQuarter(quarters[i], now, parse), AuthorName, k);
    QuarterContributors(table, commits, quarters, now, parse, i, k);
    AllContributorsMeaning(table, k);
  }

  /** The quarters' contributors together are the authors of the commits dated in
      the quarters. */
  lemma DatedAuthors(table: QuarterTable, commits: seq<CommitRecord>, quarters: seq<Label>, now: DateTime,
                     parse: string -> Option<DateTime>)
    requires CommitTable(table, commits, quarters, now, parse)
    ensures AllContributors(table) == set k | k in SeqMap(AuthorName, DatedCommits(commits, quarters, now, parse))
  {
    forall k | k in AllContributors(table)
      ensures k in SeqMap(AuthorName, DatedCommits(commits, quarters, now, parse))
    {
      AllContributorsMeaning(table, k);
      var i :| 0 <= i < |table| && k in table[i].1.contributors;
      ContributorIsDatedAuthor(table, commits, quarters, now, parse, i, k);
    }
    forall k | k in SeqMap(AuthorName, DatedCommits(commits, quarters, now, parse))
      ensures k in AllContributors(table)
    {
      DatedAuthorIsContributor(table, commits, quarters, now, parse, k);
    }
  }

  /** The year-over-year totals on the table the commit loop leaves. Some quarter is
      shown exactly when some commit is dated in the quarters; then the totals are the
      number of those commits and of their distinct authors, with no pull request.
      With no quarter shown they are the numbers of all commits, all distinct authors
      and all pull requests. */
  lemma InsightsTotals(table: QuarterTable, commits: seq<CommitRecord>, quarters: seq<Label>, now: DateTime,
                       parse: string -> Option<DateTime>, prs: seq<PullRecord>)
    requires forall i, j :: 0 <= i < j < |quarters| ==> quarters[i] != quarters[j]
    requires CommitTable(table, commits, quarters, now, parse)
    ensures var summary := Filter(SeqMap(SummaryEntry, table), IsActive);
      var y := Insights(summary, table, commits, Tally(SeqMap(AuthorName, commits)), prs).yearOverYear;
      var dated := DatedCommits(commits, quarters, now, parse);
      (summary == [] <==> dated == []) &&
      (summary != [] ==>
        y.totalCommits == |dated| && y.totalContributors == |set k | k in SeqMap(AuthorName, dated)| &&
        y.totalPrs == 0 && y.overallMergeRate == 0.0) &&
      (summary == [] ==>
        y.totalCommits == |commits| && y.totalContributors == |set k | k in SeqMap(AuthorName, commits)| &&
        y.totalPrs == |prs|)
  {
    var rows := SeqMap(SummaryEntry, table);
    var summary := Filter(rows, IsActive);
    var authorCommits := Tally(SeqMap(AuthorName, commits));
    CommitTableHasNoPrs(table, commits, quarters, now, parse);
    SummaryMissesPullRequests(table, commits, authorCommits, prs, summary);
    ActiveCommitsSum(rows);
    RowCommitsCounted(commits, quarters, now, parse, table);
    CountedExactlyOnce(commits, CommitDate, quarters, now, parse);
    DatedAuthors(table, commits, quarters, now, parse);
    TallySize(SeqMap(AuthorName, commits));
    if summary != [] {
      assert SumOver(summary, RowCommits) >= RowCommits(summary[0].1);
    }
  }
}
