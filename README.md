# GitPeek backend core in Dafny

GitPeek's backend fetches a repository's commits and pull requests from GitHub. It buckets them into calendar quarters and reports code ownership, dependency risk, quarterly insights and pull-request workflow. It also sanitises what it receives, rate-limits clients and keeps a table of login sessions.

This project models the deterministic core of that backend:

- **Pagination** (`pagination.dfy`). The page-by-page walks over GitHub collections:
  - the user's repositories, starred repositories and commits;
  - commits up to a limit;
  - the pull requests inside a date window, newest first;
  - the two streaming commit walks.

  A page is a status plus a list of items. The sequence of pages, or a function answering (page, per_page) requests, stands for the network.
- **Quarters** (`calendar.dfy`, `quarters.dfy`). The quarter arithmetic:
  - the "YYYY Qn" labels, the last four quarters and the current quarter;
  - the date ranges of the quarter filters and the financial-year labels;
  - the date extraction from GitHub items, and the filter that keeps the items of the target quarters.
- **Analysis** (`counting.dfy`, `ownership.dfy`, `activity.dfy`, `summary.dfy`, `workflow.dfy`, `analysis.dfy`). The integer parts of `analyze_repository_data`:
  - the per-author commit tally and the descending ranking;
  - the commit distribution and the module-impact estimates;
  - the per-quarter commit and pull-request loops and the quarterly summary and insights;
  - the risk levels and the dependency counts;
  - the pull-request statistics, the workflow analysis and its fallback estimates.
- **Filters** (`filters.dfy`). `filter_quarterly_data` and `filter_all_analysis_data`, which narrow a finished analysis to the target quarters.
- **Security** (`security.dfy`):
  - input validation and HTML escaping;
  - the session-id check;
  - the recursive sanitiser of GitHub JSON;
  - the sliding-window rate limiter, a class over a map of timestamp lists.
- **Sessions** (`sessions.dfy`). The session table: a class over a map from id to session, with expiry.

`common.dfy` holds the shared helpers:
- Option and Result;
- list comprehensions as `Filter` and `SeqMap`;
- dictionaries as association lists in insertion order, with `Lookup` as `d.get(k)`;
- the first maximum, as Python's `max` picks it.

Python dictionaries are modelled as sequences of pairs, because their insertion order is observable in the results: rankings are stable sorts, and `max` keeps the first maximum. The clock (`now`), the fresh session id and the ISO-8601 parser (`parse`) are parameters.

## Model

| member | source | states |
|---|---|---|
| Calendar.QuarterOfMonth | backend/backend/app/github.py:772 | `(m - 1) // 3 + 1` is in 1..4 and month m lies in that quarter's three months |
| Calendar.LabelOf | backend/backend/app/github.py:771-773 | a date's label is a well-formed quarter of the date's own year |
| Calendar.PreviousQuarterIndex | backend/backend/app/github.py:787-795 | stepping back from Q1 wraps to Q4 of the previous year, exactly one quarter earlier |
| Calendar.QuarterIndexInjective | backend/backend/app/github.py:787-795 | two well-formed labels are equal exactly when they number the same quarter |
| Calendar.ParseLabelText | backend/backend/app/github.py:773 | the text "YYYY Qn" can be read back into the label it came from |
| Calendar.LabelTextInjective | backend/backend/app/github.py:1123-1124 | comparing label strings, as the quarter lookups do, is comparing quarters |
| Calendar.PrevDay | backend/backend/app/github.py:843 | one day back is strictly earlier, and only 0001-01-01 overflows |
| Calendar.MinusDaysEarlier | backend/backend/app/github.py:843 | `now - timedelta(days=n)` with n > 0 is before `now` |
| Calendar.MinusDaysDefinedLate | backend/backend/app/github.py:843 | from year 2 on, going back up to 365 days never overflows |
| Calendar.BeforeTotal | backend/backend/app/github.py:1122 | datetime comparison is a strict total order |
| Quarters.QuarterInfo | backend/backend/app/github.py:768-775 | "Unknown" exactly when the date does not parse; otherwise the year and the quarter containing the month |
| Quarters.CurrentQuarter | backend/backend/app/github.py:799-805 | the current quarter is the quarter of `now` in `now`'s year |
| Quarters.QuartersLastYear | backend/backend/app/github.py:777-797 | four distinct well-formed labels, the current quarter first and the i-th exactly i quarters before it; they are the `LastYearQuarters` the analysis uses |
| Quarters.QuartersBackMeaning | backend/backend/app/github.py:786-795 | stepping back n times from a quarter gives n well-formed labels, the i-th exactly i quarters before the first |
| Quarters.CurrentRangeIsCurrentQuarter | backend/backend/app/github.py:811-825 | the 'current' range holds exactly the datetimes of the current quarter |
| Quarters.FinancialRangeIsFinancialYear | backend/backend/app/github.py:827-838 | the 'last_financial' range exists inside years 1..9999 and holds exactly April to March of the financial year of `now` |
| Quarters.LookbackRangeEndsNow | backend/backend/app/github.py:840-848 | 'past_year' and the default range end at `now`, start earlier and exist from year 2 on |
| Quarters.FinancialYearQuarters | backend/backend/app/github.py:867-879 | four well-formed quarter labels |
| Quarters.FinancialQuartersAreCalendarYear | backend/backend/app/github.py:867-879 | the financial labels cover January to December of the year the financial year starts in |
| Quarters.FinancialLabelsMissTheRange | backend/backend/app/github.py:867-879 | the financial labels and the 'last_financial' range cover different spans: the range's last day carries a label outside the list, and no day of the range carries the list's Q1 |
| Quarters.TargetQuartersMeaning | backend/backend/app/github.py:931-935 | 'last_financial' targets the dates of the financial year's starting calendar year; every other filter targets the current quarter |
| Quarters.FirstDateMeaning | backend/backend/app/github.py:920-924 | the first candidate that is a non-empty string, or None when there is none |
| Quarters.SixthCandidateRedundant | backend/backend/app/github.py:907-918 | the sixth candidate repeats the first and never changes the extracted date |
| Quarters.KeptByQuarterMeaning | backend/backend/app/github.py:940-951 | an item is kept exactly when it is a dictionary whose extracted date parses and falls in a target quarter |
| Quarters.FilterDataByQuarters | backend/backend/app/github.py:926-962 | the kept items, as an order-preserving subsequence of the input |
| Security.ValidateInput | backend/backend/app/security.py:41-66 | empty input returned unchanged; too long rejected with 400; "javascript:" rejected with 400 under case-insensitive matching, including the look-alike letters that matching folds (dotted and dotless i, long s, Kelvin sign); accepted exactly when no rule rejects; without allow_html the result decodes back to the input and has no raw markup |
| Security.SchemeVariantsRejected | backend/backend/app/security.py:49-60 | "JavaScript:", "java\u017fcript:", "JAVASCR\u0130PT:x" and "javascr\u0131pt:" are all rejected as malicious |
| Security.HtmlEscapeIsCharwise | backend/backend/app/security.py:64 | the chain of replacements escapes each character independently |
| Security.EscapedHasNoMarkup | backend/backend/app/security.py:63-64 | escaped text has no '<', '>', '"' or "'" and is no shorter than its input |
| Security.UnescapeEscape | backend/backend/app/security.py:63-64 | escaping loses nothing: decoding the five entities restores the input |
| Security.ValidateSessionId | backend/backend/app/security.py:68-76 | accepted exactly when the id is 32 or more class characters, optionally followed by one final newline |
| Security.ValidSessionIdIntended | backend/backend/app/security.py:72-73 | at least 32 characters, every one a letter, digit, '_' or '-' |
| Security.TrailingNewlineAccepted | backend/backend/app/security.py:73 | 32 letters followed by a newline pass the check as written but are not a valid id |
| Security.SessionIdChecksAgree | backend/backend/app/security.py:73 | the two checks agree on every id that does not end in a newline |
| Security.SanitizeString | backend/backend/app/security.py:88 | the first 1000 characters, escaped: decodes to that prefix, has no raw markup, is at most 6000 characters long |
| Security.ValidateGithubData | backend/backend/app/security.py:78-104 | the loop over the entries builds the sanitised dictionary |
| Security.SanitizeField | backend/backend/app/security.py:86-102 | each value is treated by its type: strings cut and escaped, numbers kept, dictionaries recursed, lists cut to 100 with elements by type, others stringified |
| Security.SanitizeItem | backend/backend/app/security.py:94-98 | a list element is treated by its type: dictionaries sanitised, strings cut and escaped, anything else kept |
| Security.SanitizedKeepsKeys | backend/backend/app/security.py:80-85 | a non-dictionary becomes {}; a dictionary keeps exactly its keys, in order |
| Security.SanitizedIsClean | backend/backend/app/security.py:84-102 | every string reachable in the output is bounded and escaped, and every list has at most 100 elements |
| Security.InWindow | backend/backend/app/security.py:117-120 | the kept timestamps are exactly those less than 60 seconds old |
| Security.InWindowLater | backend/backend/app/security.py:116-120 | pruning at a later time subsumes pruning at an earlier one |
| Security.RateLimiter.constructor | backend/backend/app/security.py:107-110 | a new limiter records no client |
| Security.RateLimiter.IsAllowed | backend/backend/app/security.py:112-130 | prune the client's list, refuse when 100 or more remain, otherwise append `now`; no list exceeds 100; other clients untouched |
| Sessions.Live | backend/backend/app/models.py:64-71 | the survivors of a cleanup are exactly the unexpired sessions, unchanged |
| Sessions.LiveLater | backend/backend/app/models.py:64-71 | a second cleanup at the same or a later time removes nothing the later one alone would not |
| Sessions.SessionManager.constructor | backend/backend/app/models.py:31-33 | a new manager holds no session |
| Sessions.SessionManager.CreateSession | backend/backend/app/models.py:35-48 | stores the new session under the fresh id, expiring 3600 s after creation, and changes no other entry |
| Sessions.SessionManager.GetSession | backend/backend/app/models.py:50-56 | returns the stored session exactly when it is unexpired; deletes exactly an expired one; a missing id changes nothing |
| Sessions.SessionManager.DeleteSession | backend/backend/app/models.py:58-62 | true exactly when the id was present; afterwards it is absent and nothing else changed |
| Sessions.SessionManager.CleanupExpiredSessions | backend/backend/app/models.py:64-71 | the table becomes exactly its unexpired sessions |
| Pagination.StopPage | backend/backend/app/github.py:82-100 | the walk stops at the first page that errs, is empty or is short; no earlier page does |
| Pagination.CollectedFullPages | backend/backend/app/github.py:96-100 | the pages before the stopping page contribute at least 100 items each |
| Pagination.CollectedAllPages | backend/backend/app/github.py:79-102 | with all pages answered and the last one short, the result is the in-order concatenation of the pages |
| Pagination.GetRepositoryCommits | backend/backend/app/github.py:66-102 | the commits of the pages up to the stopping page, an error ending the walk quietly |
| Pagination.GetStarredRepos | backend/backend/app/github.py:240-283 | the same walk, each repository sanitised |
| Pagination.AppendSanitized | backend/backend/app/github.py:266-277 | appends the sanitised repositories of one page in order |
| Pagination.GetUserRepos | backend/backend/app/github.py:19-64 | an error status raises with that status; otherwise the sanitised repositories of every page |
| Pagination.GetRepositoryCommitsLimited | backend/backend/app/github.py:104-132 | a prefix of what the full walk collects, with at most `limit` commits |
| Pagination.ClassifyMeaning | backend/backend/app/github.py:191-201 | a pull request is kept exactly when since <= created_at <= until, and stops the scan exactly when older than since |
| Pagination.WindowKeeps | backend/backend/app/github.py:191-196 | every pull request kept came from the list and lies inside the window |
| Pagination.WindowAppend | backend/backend/app/github.py:197-203 | the scan over two pages is the scan of each, unless the first meets an older pull request |
| Pagination.WindowIsSubsequence | backend/backend/app/github.py:191-196 | kept pull requests stay in upstream order |
| Pagination.WindowWithoutOlder | backend/backend/app/github.py:191-201 | with no pull request older than since, the scan is a filter on the window |
| Pagination.ScanPages | backend/backend/app/github.py:159-209 | the loop over the pages returns the window scan of what the pages collect |
| Pagination.GetRepositoryPullRequests | backend/backend/app/github.py:149-209 | the window scan over the collected pages; an underflowing default lookback raises |
| Pagination.ScanPage | backend/backend/app/github.py:185-201 | the kept pull requests of one page and whether it holds an older one |
| Pagination.PrefixEndsAtOlder | backend/backend/app/github.py:197-199 | a page that meets an older pull request keeps only what came before it |
| Pagination.StreamRepositoryCommitsByDate | backend/backend/app/github.py:370-403 | yields each non-empty page up to the stopping page |
| Pagination.StreamedByDateIsCollected | backend/backend/app/github.py:379-403 | the streamed chunks join up to what the quiet walk collects |
| Pagination.RunningTotalsCount | backend/backend/app/github.py:343-364 | `total_fetched` ends as the number of items yielded |
| Pagination.StreamRepositoryCommits | backend/backend/app/github.py:337-368 | each request asks for page i + 1 at min(chunk_size, remaining); chunks are the non-empty answers cut to what remains; nothing is asked exactly when max_commits <= 0; the walk ends on an error or empty answer, on a short chunk, or with max_commits items in, and every chunk before the last request was full and left the total under max_commits |
| Pagination.EndedOnAnswer | backend/backend/app/github.py:352-357 | a walk whose last request got an error or an empty answer, after full chunks under the cap, has ended |
| Pagination.EndedOnChunk | backend/backend/app/github.py:359-367 | a walk whose last chunk is short, or brings max_commits items in, after full chunks under the cap, has ended |
| Pagination.TotalsGrow | backend/backend/app/github.py:364 | `total_fetched` never decreases |
| Pagination.WentOnBeforeLastRequest | backend/backend/app/github.py:345-367 | in an ended walk every chunk before the last request was full and left the total under max_commits |
| Pagination.EndedChunkAt | backend/backend/app/github.py:346-363 | in an ended walk still under the cap, a request answered with items has a chunk: those items cut to what remains |
| Pagination.EndedGoesOn | backend/backend/app/github.py:345-367 | in an ended walk, a full chunk that leaves the total under max_commits is followed by another request |
| Pagination.SharedLastPage | backend/backend/app/github.py:345-367 | against any server answering like GitHub on 150 commits, a walk for 120 in chunks of 50 asks for (1, 50), (2, 50), (3, 20) and yields commits 1-100 followed by 41-60 |
| Pagination.StreamOverlapsAsWritten | backend/backend/app/github.py:345-350 | as written, against GitHub's listing of 150 commits, max_commits 120 and chunk_size 50 yield commits 41-60 twice and never 101-120 |
| Pagination.FixedStreamFrom | backend/backend/app/github.py:345-367 | the corrected walk from page p, with (p - 1) * chunk_size items in, yields exactly the listing from there up to max_commits |
| Pagination.FixedStreamIsPrefix | backend/backend/app/github.py:337-368 | the corrected walk, keeping per_page at chunk_size and cutting the chunk locally, yields exactly the first max_commits commits of the listing, in order |
| Pagination.StreamedWithinLimit | backend/backend/app/github.py:345-367 | the chunks never total more than `max_commits` |
| Counting.IncrementKeys | backend/backend/app/github.py:1109 | `d[k] = d.get(k, 0) + 1` keeps the keys in place and appends a new one |
| Counting.IncrementCount | backend/backend/app/github.py:1109 | raises the count of k by one and no other count |
| Counting.TallyKeys | backend/backend/app/github.py:1104-1109 | each author seen is stored once |
| Counting.TallyCounts | backend/backend/app/github.py:1104-1109 | each author's count is the number of that author's commits |
| Counting.TallySum | backend/backend/app/github.py:1104-1109 | the counts add up to the number of commits |
| Counting.TallySize | backend/backend/app/github.py:1191 | `unique_contributors` is the number of distinct authors |
| Counting.InsertByCount | backend/backend/app/github.py:1189 | inserting an item keeps every other item and adds its count to the total |
| Counting.RankSorted | backend/backend/app/github.py:1189 | `top_contributors` is in descending order of count and is a permutation of the counts |
| Counting.InsertByCountStable | backend/backend/app/github.py:1189 | an inserted item goes ahead of the items with its count, whose order is unchanged |
| Counting.RankStable | backend/backend/app/github.py:1189 | the sort is stable: for every count, the items with that count keep the order the dictionary holds them in |
| Counting.CommitDistributionBounds | backend/backend/app/github.py:1196-1199 | top-10% and bottom-50% sums are parts of the total, disjoint from two authors on, and the top sum holds the largest count |
| Counting.TopAverageAtLeastBottomAverage | backend/backend/app/github.py:1197-1198 | per author, the top group's average is at least the bottom group's |
| Counting.TopOfLargest | backend/backend/app/github.py:1269 | the first n of the ranking are the n largest counts, in descending order |
| Ownership.EstimatesGrowWithCommits | backend/backend/app/github.py:1160-1165 | the estimates are at least 2 files, 1 folder, 15 additions and 8 deletions, and never shrink as commits grow |
| Ownership.ModuleImpact | backend/backend/app/github.py:1152-1175 | one entry per author, in order, with that author's estimates |
| Ownership.RiskLevelMeaning | backend/backend/app/github.py:1387-1388 | the level is critical, high, medium or low as the share exceeds 50, 30 or 10 percent |
| Ownership.RoundedShareAboveMeaning | backend/backend/app/github.py:1393 | the exact-arithmetic reading of `round(percentage, 2) > t`: a share is counted above t exactly when it exceeds t + 0.005 |
| Ownership.KeyContributors | backend/backend/app/github.py:1386-1411 | one key contributor per ranked author, in order, with its commits and risk level |
| Ownership.CountAboveExists | backend/backend/app/github.py:1414-1416 | a count is positive exactly when some contributor's rounded share is above the threshold |
| Ownership.DependencyCountsOrdered | backend/backend/app/github.py:1414-1416 | bus_factor >= high_dependency_count >= critical_dependency_count |
| Ownership.DependencyCountsBounded | backend/backend/app/github.py:1414-1416 | at most one contributor above 50%, three above 30% and nine above 10% |
| Ownership.RiskAssessmentMeaning | backend/backend/app/github.py:1424-1437 | overall risk is critical exactly when someone is above 50%, low exactly when nobody is above 30% and at least three are above 10%; no advice exactly when medium or low with a bus factor of 2 or more; critical risk advises knowledge transfer and documentation first |
| Activity.HitsAtMostOne | backend/backend/app/github.py:1122-1125 | a dated item counts in at most one of distinct quarters |
| Activity.CountedOnce | backend/backend/app/github.py:1104-1127 | the per-quarter counts add up to at most the number of items |
| Activity.HitsMeaning | backend/backend/app/github.py:1122-1125 | an item hits the list of quarters exactly when some quarter of the list counts it |
| Activity.CountedExactlyOnce | backend/backend/app/github.py:1112-1127 | over distinct quarters, the per-quarter counts add up to exactly the number of items counted in some quarter |
| Activity.QuarterFromCommitsMeaning | backend/backend/app/github.py:1122-1127 | a quarter's commits equal the sum of its per-author counts; its contributors are the authors counted; each count is that author's commits in the quarter |
| Activity.AddCommitToQuarter | backend/backend/app/github.py:1112-1130 | one commit is added to the one quarter its date falls in, if any |
| Activity.CountCommits | backend/backend/app/github.py:1104-1130 | the author tally, and each quarter's entry built from its commits |
| Activity.WithPrsKeepsMergedWithinTotal | backend/backend/app/github.py:1463-1466 | counting pull requests keeps merged <= total and leaves the commit counts alone |
| Activity.AddPrToQuarter | backend/backend/app/github.py:1455-1469 | one pull request is counted in the one quarter it falls in, if any |
| Activity.CountPullRequests | backend/backend/app/github.py:1447-1469 | the pull-request author tally, and each quarter's counts after the loop |
| Summary.MergeRate | backend/backend/app/github.py:1263 | merged as a percentage of all, 0 without pull requests, within 0..100 |
| Summary.OverallRate | backend/backend/app/github.py:1311 | dividing by max(total, 1) gives the merge rate, and 0 when nothing merged |
| Summary.Velocity | backend/backend/app/github.py:1266 | commits per contributor, 0 without contributors |
| Summary.SummarizeQuarters | backend/backend/app/github.py:1255-1284 | one row per quarter, in table order, keeping the active ones |
| Summary.SummaryMembership | backend/backend/app/github.py:1284 | a quarter has a row exactly when it has commits or pull requests |
| Summary.SummaryRowMeaning | backend/backend/app/github.py:1256-1279 | a row's top contributors are the quarter's three largest counts; its merge rate is a percentage |
| Summary.ActiveCommitsSum | backend/backend/app/github.py:1284-1288 | dropping inactive rows does not change the commit total |
| Summary.RowCommitsCounted | backend/backend/app/github.py:1288 | the rows' commits add up to the commits counted per quarter |
| Summary.AllContributorsMeaning | backend/backend/app/github.py:1309 | the year's contributors are the union of the quarters' contributors |
| Summary.GrowthMeaning | backend/backend/app/github.py:1293-1303 | from four rows on, growing above 110% and declining below 90% of the older average; stable otherwise, never "insufficient data" |
| Summary.InsightsTrendsMeaning | backend/backend/app/github.py:1287-1336 | the trends name the first shown quarter with the most commits and the first with the highest merge rate, as `max` returns them; none and "insufficient data" without rows |
| Summary.CommitTableHasNoPrs | backend/backend/app/github.py:1094-1102 | the table the commit loop leaves has no pull request counted |
| Summary.RowsWithoutPrs | backend/backend/app/github.py:1284 | on such a table no row reports pull requests and only quarters with commits are shown |
| Summary.InsightsTotals | backend/backend/app/github.py:1284-1336 | on the table the commit loop leaves: some quarter is shown exactly when some commit is dated in the quarters; then the year counts those commits and their distinct authors and no pull request; otherwise all commits, all distinct authors and all pull requests |
| Summary.DatedAuthors | backend/backend/app/github.py:1309 | the union of the quarters' contributors is the set of authors of the commits dated in the quarters |
| Summary.SummaryMissesPullRequests | backend/backend/app/github.py:1240-1284 | the summary is taken before the pull requests are counted: every row shows 0 pull requests and a 0 merge rate, and so does the year |
| Summary.ContributorsAreAuthors | backend/backend/app/github.py:1126 | every quarter's contributors are commit authors |
| Summary.YearOverYearBounded | backend/backend/app/github.py:1305-1311 | the year-over-year totals never exceed the commits and the authors |
| Workflow.QuarterlyPrActivity | backend/backend/app/github.py:1505-1512 | an activity entry for each quarter with pull requests, in table order |
| Workflow.ActivityMembership | backend/backend/app/github.py:1506-1512 | a quarter has an entry exactly when it has pull requests; the entry's rate is a percentage |
| Workflow.EstimatePrAuthors | backend/backend/app/github.py:1577-1579 | the estimates of the eight largest committers |
| Workflow.EstimatedAuthorsMeaning | backend/backend/app/github.py:1577-1579 | at most eight authors, the largest, each estimated at least 1 and at most a tenth of their commits |
| Workflow.EstimateQuarterlyActivity | backend/backend/app/github.py:1582-1591 | an estimated entry for each quarter with commits, in order |
| Workflow.EstimatedActivityMeaning | backend/backend/app/github.py:1582-1591 | each estimate has at least one pull request, no more than the quarter's commits, merged within it, at 85% |
| Workflow.TrendsMeaning | backend/backend/app/github.py:1617-1622 | the trends name the first quarter with the most pull requests and the first with the highest merge rate; none without activity |
| Workflow.MostActiveAuthorsMeaning | backend/backend/app/github.py:1611 | the five largest pull-request authors in descending order, or the placeholder when there are none; a workflow without activity is consistent |
| Workflow.QuarterlyPrsBounded | backend/backend/app/github.py:1620 | the quarterly pull-request total never exceeds the number of pull requests |
| Workflow.PrStatsMeaning | backend/backend/app/github.py:1626-1636 | merged and closed-unmerged are disjoint, so are open and closed; the merge rate is a percentage, 0 without pull requests |
| Analysis.CodeOwnershipOf | backend/backend/app/github.py:1149-1199 | `top_contributors` is a descending permutation of the author counts; `total_commits` and `unique_contributors` are the totals; one estimate per author; the top-10% sum holds every count, is disjoint from the bottom-50% sum and averages at least as much |
| Analysis.OwnershipOfFacts | backend/backend/app/github.py:1185-1199 | the ownership figures of any author tally meet the ownership properties of `CodeOwnershipOf` |
| Analysis.AssessDependencyRisk | backend/backend/app/github.py:1382-1437 | one key contributor per ranked author with its risk level; critical <= high <= bus factor, at most 1, 3 and 9 when the counts fit the total; critical exactly when someone is above 50%; no advice exactly when medium or low with a bus factor of 2 or more |
| Analysis.DependencyRiskFacts | backend/backend/app/github.py:1382-1437 | the risk derived from any ranking meets the risk properties of `AssessDependencyRisk` |
| Analysis.PullRequestWorkflow | backend/backend/app/github.py:1447-1623 | the trends are those of its own activity; with pull requests the five largest pull-request authors and a quarterly total within the pull requests; with commits only the estimates at 85%; with neither the placeholder author and no activity |
| Analysis.WorkflowAnalysisFacts | backend/backend/app/github.py:1447-1623 | on any commit-loop table without pull requests, the workflow analysis meets the workflow properties of `PullRequestWorkflow` |
| Analysis.EstimatedWorkflow | backend/backend/app/github.py:1571-1595 | with commits but no pull requests, the workflow shows the estimates |
| Analysis.CountedBound | backend/backend/app/github.py:1505-1512 | the quarters filled by the pull-request loop hold at most as many pull requests as there are |
| Analysis.AuthorsWorkflow | backend/backend/app/github.py:1505-1512 | with pull requests, the workflow shows the five most active of their authors and trends consistent with its activity |
| Analysis.EmptyWorkflow | backend/backend/app/github.py:1611 | with neither, only the placeholder author and no activity |
| Analysis.AnalyzePullRequests | backend/backend/app/github.py:1626-1636 | `total_prs` is the number of pull requests and `merged_prs` the merged ones; merged and closed, open and closed are disjoint; the merge rate is a percentage; the workflow facts hold |
| Analysis.CountCommitsByQuarter | backend/backend/app/github.py:1094-1130 | the author tally of every commit; the table of the last four quarters, current first and each one quarter before the previous, each quarter built from the commits dated in it, with no pull request counted |
| Analysis.LastYearTableFacts | backend/backend/app/github.py:1094-1130 | the commit table of the last year has the four quarters as keys, distinct, current first, each one quarter before the previous, each built from its commits, with no pull request counted |
| Analysis.QuarterlyInsightsOf | backend/backend/app/github.py:1255-1336 | every shown quarter has commits but 0 pull requests and a 0 merge rate; some quarter is shown exactly when some commit is dated in the quarters, and then the year counts those commits and their distinct authors and 0 pull requests; without rows all pull requests and "insufficient data"; totals within the commits and the authors |
| Analysis.InsightsOfFacts | backend/backend/app/github.py:1255-1336 | on any table the commit loop leaves, the insights meet the properties of `QuarterlyInsightsOf` |
| Analysis.AnalyzeRepositoryData | backend/backend/app/github.py:1021-1654 | the author counts add up to the commits, one per distinct author, empty exactly without commits; the year-over-year totals count the commits dated in the last four quarters and their authors; the ownership, insights, risk and pull-request properties above hold of the result |
| Analysis.AnalysisOfFacts | backend/backend/app/github.py:1021-1654 | for all commits and pull requests, the analysis meets every property of `AnalyzeRepositoryData`: the author counts, the ownership, insights, risk and pull-request facts |
| Filters.SelectQuartersMembership | backend/backend/app/github.py:891-897 | a row is selected exactly when its quarter is a target and the table stores it |
| Filters.SelectQuartersMeaning | backend/backend/app/github.py:891-897 | with distinct quarters, selected rows are exactly the rows of target quarters |
| Filters.SelectQuartersOrdered | backend/backend/app/github.py:891-893 | the selected quarters follow the order of the targets |
| Filters.SelectQuartersDistinct | backend/backend/app/github.py:891-897 | distinct targets select each quarter at most once |
| Filters.SelectQuartersIdempotent | backend/backend/app/github.py:881-902 | selecting again with the same targets changes nothing |
| Filters.FilterQuarterlyData | backend/backend/app/github.py:881-902 | the insights narrowed as `FilteredInsights` states: an empty table unchanged, otherwise the rows of the target quarters |
| Filters.FilteredInsightsMeaning | backend/backend/app/github.py:881-902 | exactly the stored rows of target quarters, once each, in target order, other fields kept, idempotent |
| Filters.StaleTrendsAsWritten | backend/backend/app/github.py:1001-1017 | as written, filtering away the only quarter leaves trends counting its 3 pull requests beside empty activity |
| Filters.FilterWorkflowAgreesWhenActive | backend/backend/app/github.py:1001-1010 | as written and corrected agree whenever some activity remains |
| Filters.FilterWorkflowMeaning | backend/backend/app/github.py:991-1017 | corrected: keeps the activity of the target quarters in order, keeps the authors, keeps trends consistent, idempotent |
| Filters.FilterWorkflowAsWrittenMeaning | backend/backend/app/github.py:991-1017 | as written: the same activity and authors as the corrected filter; the corrected result while activity is left, the old trends once none is left; idempotent |
| Filters.FilterQuarterlyActivity | backend/backend/app/github.py:993-998 | the activity entries whose quarter is a target, in order |
| Filters.FilterWorkflowAnalysis | backend/backend/app/github.py:989-1017 | as written: the activity narrowed to the target quarters, trends recomputed only when some is left; the reset for no activity is proved unreachable |
| Filters.FilteredAnalysisMeaning | backend/backend/app/github.py:964-1019 | corrected: ownership, risk and pull-request totals unchanged; trends stay consistent; filtering twice is filtering once |
| Filters.FilteredAnalysisAsWrittenMeaning | backend/backend/app/github.py:964-1019 | as written: ownership, risk and pull-request totals unchanged, insights narrowed as corrected; the corrected analysis whenever workflow activity is left; filtering twice is filtering once |
| Filters.AnalysisDict.constructor | backend/backend/app/github.py:964 | the dictionary holds the given analysis |
| Filters.AnalysisDict.FilterAllAnalysisData | backend/backend/app/github.py:964-1019 | rewrites the insights and the workflow in place as the source leaves them; ownership and risk untouched; trends consistent when activity is left, the old trends when none is |

## Left out

- HTTP, OAuth, routing, the SSE generator, the concurrent and per-commit detail fetches (`get_detailed_commits`, `stream_detailed_commits`, `_get_commit_details`, `get_repository_contributors`, `get_pr_reviews_and_comments`): I/O and concurrency; the page sequence stands for the network.
- `datetime.now`, `time.time` and `secrets.token_urlsafe`: taken as the parameters `now` and `freshId`.
- ISO-8601 parsing: the parser is a parameter `parse`; pull-request timestamps are pre-parsed `Stamp`s whose awareness flag stands for the naive/aware `TypeError`. `GetRepositoryPullRequests` likewise takes `since` and `until` already parsed, so the `ValueError` that a malformed `since_date` or `until_date` raises on the first non-empty page (github.py:186-187) is not modelled; its callers pass the output of `epoch_to_iso_date`.
- Time zones: the analysis measures its 550-day cutoff from one `now` rather than `datetime.now(tzinfo)` per commit.
- The epoch conversions of `quarter_to_epoch_range`, `epoch_to_iso_date` and `get_default_date_range`: platform local-time calls; the ranges are modelled as datetimes.
- The regular expressions of `validate_input` other than `javascript:`: an uninterpreted predicate `otherPattern`.
- `SecurityMiddleware`: constant headers.
- Security.Value: a JSON object is an association list, which may repeat a key where a Python dict cannot; `SanitizedKeepsKeys` keeps the key list exactly, so distinct keys stay distinct, and the model does not restrict inputs to distinct keys.
- Summary.MergeRate: exact rational, without `round(…, 1)`; the same holds for every merge rate, velocity and average in the analysis. Because the rates are exact, two quarters that tie after rounding can be ordered differently: 2 of 3 merged (66.7 rounded) listed before 667 of 1000 (66.7) makes `max` pick the first as the highest merge-rate quarter in the source, and the model the second.
- Workflow.TrendsMeaning: the average merge rate is exact, without `round(…, 1)`; with exact rates the highest-quality quarter can differ from the source's where two rates tie only after rounding, as for Summary.MergeRate.
- Ownership.RoundedShareAbove: decided on exact rationals. The source rounds a Python double, so at a share of exactly t + 0.005 the binary value decides: 10001 of 20000 commits (50.005 %) and 2001 of 20000 (10.005 %) round up and count as above 50 and 10 in the source, while the model counts them as not above; the critical and high dependency counts, `overall_risk` and the recommendations can then differ.
- Analysis.CodeOwnershipOf: `module_impact` stays in author insertion order; the source re-sorts it by the floating-point `impact_score`, which is not modelled.
- Analysis.AnalyzeRepositoryData: only the `data_pre_filtered=True` path, which both call sites use; the other path is `filter_data_by_quarters`, modelled on its own.
- Analysis.AnalyzeRepositoryData: the `author_stats` loop (github.py:1134-1146) runs outside any `try`, and for an author with two or more dated commits it parses the earliest and latest date strings with `datetime.fromisoformat` (github.py:1143-1144). A date that does not parse there, or a mix of naive and aware dates, raises `ValueError` or `TypeError` out of `analyze_repository_data`; the model skips such a commit, as the guarded quarter loop at github.py:1118-1130 does, and still returns an analysis. For example one author with the dates "2024-01-01T00:00:00Z" and "garbage" makes the source fail.
- Analysis.AnalyzeRepositoryData: `author_stats`, `knowledge_areas`, the activity heatmaps, the simulated pull-request reviews, collaboration pairs, `diversity_score` and `concentration_risk` are left out; they are floating point, string formatting or set-iteration order.
- Analysis.AssessDependencyRisk: recency fields from `author_stats` (`days_since_last_commit`, `is_recent`) are left out; they read the clock per contributor.
- Pagination.GetStarredRepos: yields the sanitised repository objects themselves. The `Repository(...)` projection at github.py:268-277 (fields at models.py:13-21) is not modelled. So an item missing `id`, `name`, `full_name`, `private`, `created_at` or `updated_at` (a `KeyError`), or holding a field pydantic refuses (a `ValidationError`), does not fail the walk as it does in the source.
- Pagination.GetUserRepos: the same gap, for the projection at github.py:49-58.
- Activity.PrAuthor: a pull request whose `user` is JSON null raises `AttributeError` at github.py:1447. `PullRecord` cannot hold a null `user`, so that error path is not modelled; a missing `user` gives "Unknown" as in the source.
- Ownership.AuthorName: a commit without a linked account whose `commit` or `commit.author` is JSON null raises `AttributeError` at github.py:1105-1107. `CommitRecord` always holds a git author block, so that error path is not modelled.
- `RepositoryAnalysis` places `pull_request_analysis` beside `dependency_risk` rather than inside it, and `quarterly_insights` at the top level rather than inside `activity_heatmap` (github.py:1373, read there at 978-980).
- Pagination.GitHubPage: GitHub's paging is modelled for per_page 1 to 100 only; other requests get 422, while GitHub clamps them.
- Pagination.FixedStreamIsPrefix: the corrected walk is stated against GitHub's listing of a fixed commit list; commits pushed during the walk are not modelled. `StreamRepositoryCommits` stays the code as written, against any server.
- `filter_all_analysis_data` has no caller in the repository; `FilterAllAnalysisData` models it as written, and `FilteredAnalysis` is the corrected filter of the finding below.

## Findings

| source | as written | input that shows it | evidently intended | confidence | as-written member | corrected member |
|---|---|---|---|---|---|---|
| backend/backend/app/security.py:73 | `re.match(r'^[a-zA-Z0-9_-]{32,}$', id)`; Python's `$` also matches before a final newline | 32 × "a" followed by "\n" is accepted | reject any character outside the class | high, not executed | Security.TrailingNewlineAccepted | Security.ValidSessionIdIntended |
| backend/backend/app/github.py:1001-1017 | trends are recomputed only when filtered activity remains; the reset branch is unreachable | one quarter with 3 pull requests, filtered to another quarter: empty activity, trends still count 3 | reset the trends when no activity remains | high, not executed | Filters.StaleTrendsAsWritten | Filters.FilterWorkflowMeaning |
| backend/backend/app/github.py:345-350 | `per_page` shrinks to `min(chunk_size, max_commits - total_fetched)` on the last request while `page` keeps counting, so the last page starts at the wrong offset | 150 commits, max_commits 120, chunk_size 50: the third request is page 3 at per_page 20, commits 41-60, already yielded; commits 101-120 are never fetched | keep per_page at chunk_size and cut the last chunk locally, which the code already does | high, not executed | Pagination.StreamOverlapsAsWritten | Pagination.FixedStreamIsPrefix |
