/** The quarterly activity in analyze_repository_data (backend/app/github.py): commits
    and pull requests bucketed into the last four quarters, the per-quarter summary
    and its trends, the per-quarter pull-request activity with its estimated fallback,
    and the pull-request statistics. Dates are parsed by the parameter `parse` and the
    clock is the parameter `now`. Percentages are exact rationals, unrounded. */
module Activity {
  import opened Common
  import opened Calendar
  import opened Quarters
  import opened Counting
  import opened Ownership

  // ---------------------------------------------------------------------------
  // Records
  // ---------------------------------------------------------------------------

  /** The parts of a GitHub pull request the analysis reads: `user.login` (absent when
      `user` or its login is missing), `created_at` ("" when missing), whether
      `merged_at` is set, and `state` ("" when missing). */
  datatype PullRecord = PullRecord(userLogin: NameField, createdAt: string, merged: bool, state: string)

  /** `pr.get('user', {}).get('login', 'Unknown')`. */
  function PrAuthor(pr: PullRecord): AuthorKey
  {
    match pr.userLogin
    case NameAbsent => Some("Unknown")
    case NameNull => None
    case Name(login) => Some(login)
  }

  /** An entry of `quarterly_data`. */
  datatype QuarterData = QuarterData(
    commits: nat,
    contributors: set<AuthorKey>,
    authorCommits: seq<(AuthorKey, nat)>,
    prCount: nat,
    mergedPrs: nat)

  const EmptyQuarter := QuarterData(0, {}, [], 0, 0)

  type QuarterTable = seq<(Label, QuarterData)>

  // ---------------------------------------------------------------------------
  // Which quarter an item is counted in
  // ---------------------------------------------------------------------------

  /** The cutoff 550 days before now; None where it would fall before year 1, which
      raises inside the `try` and skips the item. */
  function Cutoff(now: DateTime): Option<DateTime>
  {
    MinusDays(now, 550)
  }

  /** An item dated `date` is counted in quarter `q`: the date is non-empty and parses,
      it is not before the cutoff, and its quarter label is `q`. */
  predicate CountsIn(date: string, q: Label, now: DateTime, parse: string -> Option<DateTime>)
  {
    date != "" && parse(date).Some? && Cutoff(now).Some? &&
    !Before(parse(date).value, Cutoff(now).value) && LabelOf(parse(date).value) == q
  }

  function CommitDate(c: CommitRecord): string
  {
    c.date
  }

  function PrDate(pr: PullRecord): string
  {
    pr.createdAt
  }

  /** The test an item passes to be counted in quarter `q`, for items dated by `date`. */
  function ItemInQuarter<T>(date: T -> string, q: Label, now: DateTime, parse: string -> Option<DateTime>): T -> bool
  {
    (x: T) => CountsIn(date(x), q, now, parse)
  }

  function CommitInQuarter(q: Label, now: DateTime, parse: string -> Option<DateTime>): CommitRecord -> bool
  {
    ItemInQuarter(CommitDate, q, now, parse)
  }

  function PrInQuarter(q: Label, now: DateTime, parse: string -> Option<DateTime>): PullRecord -> bool
  {
    ItemInQuarter(PrDate, q, now, parse)
  }

  /** A pull request counted in `q` that was merged. */
  function MergedInQuarter(q: Label, now: DateTime, parse: string -> Option<DateTime>): PullRecord -> bool
  {
    (pr: PullRecord) => CountsIn(pr.createdAt, q, now, parse) && pr.merged
  }

  /** The number of the quarters an item dated `date` is counted in. */
  function Hits(date: string, quarters: seq<Label>, now: DateTime, parse: string -> Option<DateTime>): nat
  {
    if quarters == [] then 0
    else (if CountsIn(date, quarters[0], now, parse) then 1 else 0) + Hits(date, quarters[1..], now, parse)
  }

  lemma {:induction false} NoHits(date: string, quarters: seq<Label>, now: DateTime, parse: string -> Option<DateTime>)
    requires forall i :: 0 <= i < |quarters| ==> !CountsIn(date, quarters[i], now, parse)
    ensures Hits(date, quarters, now, parse) == 0
  {
    if quarters != [] {
      assert forall i :: 0 <= i < |quarters[1..]| ==> quarters[1..][i] == quarters[i + 1];
      NoHits(date, quarters[1..], now, parse);
    }
  }

  /** An item is counted in at most one of a list of distinct quarters. */
  lemma {:induction false} HitsAtMostOne(date: string, quarters: seq<Label>, now: DateTime, parse: string -> Option<DateTime>)
    requires forall i, j :: 0 <= i < j < |quarters| ==> quarters[i] != quarters[j]
    ensures Hits(date, quarters, now, parse) <= 1
  {
    if quarters != [] {
      var rest := quarters[1..];
      assert forall i :: 0 <= i < |rest| ==> rest[i] == quarters[i + 1];
      if CountsIn(date, quarters[0], now, parse) {
        NoHits(date, rest, now, parse);
      } else {
        HitsAtMostOne(date, rest, now, parse);
      }
    }
  }

  /** How many items each quarter counts, summed over the quarters. */
  function CountedPerQuarter<T>(items: seq<T>, date: T -> string, quarters: seq<Label>, now: DateTime,
                                parse: string -> Option<DateTime>): nat
  {
    if quarters == [] then 0
    else |Filter(items, ItemInQuarter(date, quarters[0], now, parse))| +
         CountedPerQuarter(items, date, quarters[1..], now, parse)
  }

  lemma {:induction false} CountedPerQuarterNone<T>(date: T -> string, quarters: seq<Label>, now: DateTime,
                                                    parse: string -> Option<DateTime>)
    ensures CountedPerQuarter([], date, quarters, now, parse) == 0
  {
    if quarters != [] {
      CountedPerQuarterNone(date, quarters[1..], now, parse);
    }
  }

  lemma {:induction false} CountedPerQuarterStep<T>(items: seq<T>, k: nat, date: T -> string, quarters: seq<Label>,
                                                    now: DateTime, parse: string -> Option<DateTime>)
    requires k < |items|
    ensures CountedPerQuarter(items[..k + 1], date, quarters, now, parse) ==
      CountedPerQuarter(items[..k], date, quarters, now, parse) + Hits(date(items[k]), quarters, now, parse)
  {
    if quarters != [] {
      var keep := ItemInQuarter(date, quarters[0], now, parse);
      FilterStep(items, k, keep, keep(items[k]));
      CountedPerQuarterStep(items, k, date, quarters[1..], now, parse);
    }
  }

  /** No item is counted twice: the per-quarter counts over distinct quarters add up
      to at most the number of items. */
  lemma {:induction false} CountedOnce<T>(items: seq<T>, date: T -> string, quarters: seq<Label>, now: DateTime,
                                          parse: string -> Option<DateTime>)
    requires forall i, j :: 0 <= i < j < |quarters| ==> quarters[i] != quarters[j]
    ensures CountedPerQuarter(items, date, quarters, now, parse) <= |items|
  {
    CountedPerQuarterNone(date, quarters, now, parse);
    assert items[..0] == [];
    for k := 0 to |items|
      invariant CountedPerQuarter(items[..k], date, quarters, now, parse) <= k
    {
      CountedPerQuarterStep(items, k, date, quarters, now, parse);
      HitsAtMostOne(date(items[k]), quarters, now, parse);
    }
    assert items[..|items|] == items;
  }

  /** The test an item passes to be counted in one of the quarters. */
  function InSomeQuarter<T>(date: T -> string, quarters: seq<Label>, now: DateTime,
                            parse: string -> Option<DateTime>): T -> bool
  {
    (x: T) => Hits(date(x), quarters, now, parse) > 0
  }

  /** An item hits the list exactly when some quarter of the list counts it. */
  lemma {:induction false} HitsMeaning(date: string, quarters: seq<Label>, now: DateTime, parse: string -> Option<DateTime>)
    ensures Hits(date, quarters, now, parse) > 0 <==> exists i :: 0 <= i < |quarters| && CountsIn(date, quarters[i], now, parse)
  {
    if quarters != [] {
      var rest := quarters[1..];
      HitsMeaning(date, rest, now, parse);
      if exists i :: 0 <= i < |rest| && CountsIn(date, rest[i], now, parse) {
        var i :| 0 <= i < |rest| && CountsIn(date, rest[i], now, parse);
        assert quarters[i + 1] == rest[i];
      }
      if exists i :: 1 <= i < |quarters| && CountsIn(date, quarters[i], now, parse) {
        var i :| 1 <= i < |quarters| && CountsIn(date, quarters[i], now, parse);
        assert rest[i - 1] == quarters[i];
      }
    }
  }

  /** Over distinct quarters, the per-quarter counts add up to exactly the number of
      items counted in some quarter: each such item is counted once. */
  lemma {:induction false} CountedExactlyOnce<T>(items: seq<T>, date: T -> string, quarters: seq<Label>, now: DateTime,
                                                 parse: string -> Option<DateTime>)
    requires forall i, j :: 0 <= i < j < |quarters| ==> quarters[i] != quarters[j]
    ensures CountedPerQuarter(items, date, quarters, now, parse) == |Filter(items, InSomeQuarter(date, quarters, now, parse))|
  {
    var p := InSomeQuarter(date, quarters, now, parse);
    CountedPerQuarterNone(date, quarters, now, parse);
    assert items[..0] == [];
    for k := 0 to |items|
      invariant CountedPerQuarter(items[..k], date, quarters, now, parse) == |Filter(items[..k], p)|
    {
      CountedPerQuarterStep(items, k, date, quarters, now, parse);
      HitsAtMostOne(date(items[k]), quarters, now, parse);
      FilterStep(items, k, p, p(items[k]));
    }
    assert items[..|items|] == items;
  }

  // ---------------------------------------------------------------------------
  // Commits by quarter
  // ---------------------------------------------------------------------------

  /** What `quarterly_data[q]` holds after the commit loop: the commits counted in `q`,
      the set of their authors, and the authors' counts in order of first appearance. */
  function QuarterFromCommits(commits: seq<CommitRecord>, q: Label, now: DateTime,
                              parse: string -> Option<DateTime>): QuarterData
  {
    QuarterOfNames(SeqMap(AuthorName, Filter(commits, CommitInQuarter(q, now, parse))))
  }

  /** One commit counted in a quarter. */
  function Bump(data: QuarterData, authorName: AuthorKey): QuarterData
  {
    data.(commits := data.commits + 1, contributors := data.contributors + {authorName},
          authorCommits := Increment(data.authorCommits, authorName))
  }

  /** A quarter's entry as built from the names of its commits, in order. */
  function QuarterOfNames(names: seq<AuthorKey>): QuarterData
  {
    QuarterData(|names|, (set k | k in names), Tally(names), 0, 0)
  }

  lemma QuarterOfNamesAppend(names: seq<AuthorKey>, a: AuthorKey)
    ensures QuarterOfNames(names + [a]) == Bump(QuarterOfNames(names), a)
  {
    var more := names + [a];
    assert more[..|more| - 1] == names;
    assert (set x | x in more) == (set x | x in names) + {a};
  }

  lemma QuarterFromCommitsStep(commits: seq<CommitRecord>, k: nat, q: Label, now: DateTime,
                               parse: string -> Option<DateTime>)
    requires k < |commits|
    ensures QuarterFromCommits(commits[..k + 1], q, now, parse) ==
      if CountsIn(commits[k].date, q, now, parse)
      then Bump(QuarterFromCommits(commits[..k], q, now, parse), AuthorName(commits[k]))
      else QuarterFromCommits(commits[..k], q, now, parse)
  {
    var keep := CommitInQuarter(q, now, parse);
    assert ItemInQuarter(CommitDate, q, now, parse)(commits[k]) == CountsIn(CommitDate(commits[k]), q, now, parse);
    FilterStep(commits, k, keep, keep(commits[k]));
    var sel := Filter(commits[..k], keep);
    if keep(commits[k]) {
      SeqMapAppend(AuthorName, sel, [commits[k]]);
      assert SeqMap(AuthorName, [commits[k]]) == [AuthorName(commits[k])];
      QuarterOfNamesAppend(SeqMap(AuthorName, sel), AuthorName(commits[k]));
    } else {
      assert Filter(commits[..k + 1], keep) == sel;
    }
  }

  /** A quarter's counts agree with each other: its commit count is the sum of its
      per-author counts, its contributors are exactly the authors counted, and each
      author's count is the number of that author's commits in the quarter. */
  lemma QuarterFromCommitsMeaning(commits: seq<CommitRecord>, q: Label, now: DateTime,
                                  parse: string -> Option<DateTime>, author: AuthorKey)
    ensures var d := QuarterFromCommits(commits, q, now, parse);
      d.commits == |Filter(commits, CommitInQuarter(q, now, parse))| &&
      d.commits == CountSum(d.authorCommits) &&
      |d.contributors| == |d.authorCommits| &&
      (author in d.contributors <==> author in KeysOf(d.authorCommits)) &&
      CountOf(d.authorCommits, author) == multiset(SeqMap(AuthorName, Filter(commits, CommitInQuarter(q, now, parse))))[author]
  {
    var names := SeqMap(AuthorName, Filter(commits, CommitInQuarter(q, now, parse)));
    TallySum(names);
    TallySize(names);
    TallyKeys(names);
    TallyCounts(names, author);
  }

  /** How one commit changes the table: it is added to the one quarter it is counted
      in, if any. */
  lemma TableAfterCommit(commits: seq<CommitRecord>, k: nat, quarters: seq<Label>, now: DateTime,
                         parse: string -> Option<DateTime>, before: QuarterTable, after: QuarterTable,
                         hit: Option<nat>)
    requires k < |commits|
    requires forall i, j :: 0 <= i < j < |quarters| ==> quarters[i] != quarters[j]
    requires |before| == |quarters|
    requires forall i :: 0 <= i < |quarters| ==>
      before[i] == (quarters[i], QuarterFromCommits(commits[..k], quarters[i], now, parse))
    requires hit.None? ==>
      after == before && forall i :: 0 <= i < |quarters| ==> !CountsIn(commits[k].date, quarters[i], now, parse)
    requires hit.Some? ==>
      hit.value < |quarters| && CountsIn(commits[k].date, quarters[hit.value], now, parse) &&
      after == before[hit.value := (quarters[hit.value], Bump(before[hit.value].1, AuthorName(commits[k])))]
    ensures |after| == |quarters|
    ensures forall i :: 0 <= i < |quarters| ==>
      after[i] == (quarters[i], QuarterFromCommits(commits[..k + 1], quarters[i], now, parse))
  {
    forall i | 0 <= i < |quarters|
      ensures after[i] == (quarters[i], QuarterFromCommits(commits[..k + 1], quarters[i], now, parse))
    {
      QuarterFromCommitsStep(commits, k, quarters[i], now, parse);
    }
  }

  /** The quarter part of one pass of the commit loop: a commit whose date is not
      empty, parses and is not before the cutoff is added to the entry of its quarter
      label, if the table has one. */
  method AddCommitToQuarter(quarterlyData: QuarterTable, commit: CommitRecord, now: DateTime,
                            parse: string -> Option<DateTime>, ghost quarters: seq<Label>,
                            ghost commits: seq<CommitRecord>, ghost k: nat)
    returns (updated: QuarterTable)
    requires k < |commits| && commit == commits[k]
    requires forall i, j :: 0 <= i < j < |quarters| ==> quarters[i] != quarters[j]
    requires |quarterlyData| == |quarters|
    requires forall i :: 0 <= i < |quarters| ==>
      quarterlyData[i] == (quarters[i], QuarterFromCommits(commits[..k], quarters[i], now, parse))
    ensures |updated| == |quarters|
    ensures forall i :: 0 <= i < |quarters| ==>
      updated[i] == (quarters[i], QuarterFromCommits(commits[..k + 1], quarters[i], now, parse))
  {
    assert KeysOf(quarterlyData) == quarters;
    updated := quarterlyData;
    ghost var hit: Option<nat> := None;
    var commitDate := commit.date;
    if commitDate != "" {
      var parsed := parse(commitDate);
      var cutoff := Cutoff(now);
      if parsed.Some? && cutoff.Some? && !Before(parsed.value, cutoff.value) {
        var quarter := QuarterInfo(commitDate, parse);
        var j := IndexOfKey(quarterlyData, quarter);
        assert quarter == LabelOf(parsed.value);
        if j.Some? {
          assert quarters[j.value] == quarter;
          updated := quarterlyData[j.value := (quarter, Bump(quarterlyData[j.value].1, AuthorName(commit)))];
          hit := j;
        } else {
          assert quarter !in quarters;
        }
      }
    }
    TableAfterCommit(commits, k, quarters, now, parse, quarterlyData, updated, hit);
  }

  lemma AuthorTallyStep(commits: seq<CommitRecord>, k: nat)
    requires k < |commits|
    ensures Tally(SeqMap(AuthorName, commits[..k + 1])) ==
      Increment(Tally(SeqMap(AuthorName, commits[..k])), AuthorName(commits[k]))
  {
    assert commits[..k + 1] == commits[..k] + [commits[k]];
    SeqMapAppend(AuthorName, commits[..k], [commits[k]]);
    var names := SeqMap(AuthorName, commits[..k + 1]);
    assert names[..|names| - 1] == SeqMap(AuthorName, commits[..k]);
  }

  lemma EmptyTable(commits: seq<CommitRecord>, quarters: seq<Label>, now: DateTime,
                   parse: string -> Option<DateTime>, table: QuarterTable)
    requires |table| == |quarters|
    requires forall i :: 0 <= i < |quarters| ==> table[i] == (quarters[i], EmptyQuarter)
    ensures forall i :: 0 <= i < |quarters| ==>
      table[i] == (quarters[i], QuarterFromCommits(commits[..0], quarters[i], now, parse))
  {
    forall i | 0 <= i < |quarters|
      ensures QuarterFromCommits(commits[..0], quarters[i], now, parse) == EmptyQuarter
    {
      assert Filter(commits[..0], CommitInQuarter(quarters[i], now, parse)) == [];
    }
  }

  /** The commit loop: every commit adds one to its author's count; a commit whose date
      is counted in one of the quarters also adds to that quarter's count, contributors
      and per-author counts. */
  method CountCommits(commits: seq<CommitRecord>, quarters: seq<Label>, now: DateTime,
                      parse: string -> Option<DateTime>)
    returns (authorCommits: seq<(AuthorKey, nat)>, quarterlyData: QuarterTable)
    requires forall i, j :: 0 <= i < j < |quarters| ==> quarters[i] != quarters[j]
    ensures authorCommits == Tally(SeqMap(AuthorName, commits))
    ensures KeysOf(quarterlyData) == quarters
    ensures forall i :: 0 <= i < |quarters| ==>
      quarterlyData[i].1 == QuarterFromCommits(commits, quarters[i], now, parse)
  {
    quarterlyData := [];
    for i := 0 to |quarters|
      invariant |quarterlyData| == i
      invariant forall a :: 0 <= a < i ==> quarterlyData[a] == (quarters[a], EmptyQuarter)
    {
      quarterlyData := quarterlyData + [(quarters[i], EmptyQuarter)];
    }
    EmptyTable(commits, quarters, now, parse, quarterlyData);
    authorCommits := [];
    for k := 0 to |commits|
      invariant authorCommits == Tally(SeqMap(AuthorName, commits[..k]))
      invariant |quarterlyData| == |quarters|
      invariant forall i :: 0 <= i < |quarters| ==>
        quarterlyData[i] == (quarters[i], QuarterFromCommits(commits[..k], quarters[i], now, parse))
    {
      var commit := commits[k];
      var authorName := AuthorName(commit);
      authorCommits := Increment(authorCommits, authorName);
      AuthorTallyStep(commits, k);
      quarterlyData := AddCommitToQuarter(quarterlyData, commit, now, parse, quarters, commits, k);
    }
    assert commits[..|commits|] == commits;
  }

  // ---------------------------------------------------------------------------
  // Pull requests by quarter
  // ---------------------------------------------------------------------------

  /** A quarter's entry after the pull-request loop: one more pull request for each
      one counted in the quarter, and one more merged for each of those merged. */
  function WithPrs(data: QuarterData, prs: seq<PullRecord>, q: Label, now: DateTime,
                   parse: string -> Option<DateTime>): QuarterData
  {
    data.(prCount := data.prCount + |Filter(prs, PrInQuarter(q, now, parse))|,
          mergedPrs := data.mergedPrs + |Filter(prs, MergedInQuarter(q, now, parse))|)
  }

  /** One pull request counted in a quarter. */
  function CountPr(data: QuarterData, merged: bool): QuarterData
  {
    data.(prCount := data.prCount + 1, mergedPrs := data.mergedPrs + if merged then 1 else 0)
  }

  /** Counting pull requests never makes the merged count exceed the total, and leaves
      the commit counts alone. */
  lemma WithPrsKeepsMergedWithinTotal(data: QuarterData, prs: seq<PullRecord>, q: Label, now: DateTime,
                                      parse: string -> Option<DateTime>)
    requires data.mergedPrs <= data.prCount
    ensures var d := WithPrs(data, prs, q, now, parse);
      d.mergedPrs <= d.prCount && d.commits == data.commits && d.contributors == data.contributors &&
      d.authorCommits == data.authorCommits
  {
    forall i | 0 <= i < |prs|
      ensures MergedInQuarter(q, now, parse)(prs[i]) ==> PrInQuarter(q, now, parse)(prs[i])
    {
      assert ItemInQuarter(PrDate, q, now, parse)(prs[i]) == CountsIn(PrDate(prs[i]), q, now, parse);
    }
    FilterWeaker(prs, MergedInQuarter(q, now, parse), PrInQuarter(q, now, parse));
  }

  lemma WithPrsStep(data: QuarterData, prs: seq<PullRecord>, k: nat, q: Label, now: DateTime,
                    parse: string -> Option<DateTime>)
    requires k < |prs|
    ensures WithPrs(data, prs[..k + 1], q, now, parse) ==
      if CountsIn(prs[k].createdAt, q, now, parse)
      then CountPr(WithPrs(data, prs[..k], q, now, parse), prs[k].merged)
      else WithPrs(data, prs[..k], q, now, parse)
  {
    var inQuarter := PrInQuarter(q, now, parse);
    var mergedInQuarter := MergedInQuarter(q, now, parse);
    var counted := CountsIn(prs[k].createdAt, q, now, parse);
    assert inQuarter(prs[k]) == counted by {
      assert ItemInQuarter(PrDate, q, now, parse)(prs[k]) == CountsIn(PrDate(prs[k]), q, now, parse);
    }
    assert mergedInQuarter(prs[k]) == (counted && prs[k].merged);
    FilterStep(prs, k, inQuarter, counted);
    FilterStep(prs, k, mergedInQuarter, counted && prs[k].merged);
  }

  lemma WithNoPrs(data: QuarterData, prs: seq<PullRecord>, q: Label, now: DateTime,
                  parse: string -> Option<DateTime>)
    ensures WithPrs(data, prs[..0], q, now, parse) == data
  {
    assert prs[..0] == [];
  }

  /** How one pull request changes the table: it is counted in the one quarter it
      falls in, if any. */
  lemma PrTableAfter(prs: seq<PullRecord>, k: nat, table: QuarterTable, now: DateTime,
                     parse: string -> Option<DateTime>, before: QuarterTable, after: QuarterTable, hit: Option<nat>)
    requires k < |prs|
    requires DistinctKeys(table)
    requires |before| == |table|
    requires forall i :: 0 <= i < |table| ==>
      before[i] == (table[i].0, WithPrs(table[i].1, prs[..k], table[i].0, now, parse))
    requires hit.None? ==>
      after == before && forall i :: 0 <= i < |table| ==> !CountsIn(prs[k].createdAt, table[i].0, now, parse)
    requires hit.Some? ==>
      hit.value < |table| && CountsIn(prs[k].createdAt, table[hit.value].0, now, parse) &&
      after == before[hit.value := (table[hit.value].0, CountPr(before[hit.value].1, prs[k].merged))]
    ensures |after| == |table|
    ensures forall i :: 0 <= i < |table| ==>
      after[i] == (table[i].0, WithPrs(table[i].1, prs[..k + 1], table[i].0, now, parse))
  {
    forall i | 0 <= i < |table|
      ensures after[i] == (table[i].0, WithPrs(table[i].1, prs[..k + 1], table[i].0, now, parse))
    {
      WithPrsStep(table[i].1, prs, k, table[i].0, now, parse);
    }
  }

  /** The quarter part of one pass of the pull-request loop. */
  method AddPrToQuarter(quarterlyData: QuarterTable, pr: PullRecord, now: DateTime,
                        parse: string -> Option<DateTime>, ghost table: QuarterTable,
                        ghost prs: seq<PullRecord>, ghost k: nat)
    returns (updated: QuarterTable)
    requires k < |prs| && pr == prs[k]
    requires DistinctKeys(table)
    requires |quarterlyData| == |table|
    requires forall i :: 0 <= i < |table| ==>
      quarterlyData[i] == (table[i].0, WithPrs(table[i].1, prs[..k], table[i].0, now, parse))
    ensures |updated| == |table|
    ensures forall i :: 0 <= i < |table| ==>
      updated[i] == (table[i].0, WithPrs(table[i].1, prs[..k + 1], table[i].0, now, parse))
  {
    assert KeysOf(quarterlyData) == KeysOf(table);
    updated := quarterlyData;
    ghost var hit: Option<nat> := None;
    var prCreatedDate := pr.createdAt;
    if prCreatedDate != "" {
      var prDt := parse(prCreatedDate);
      var cutoffDate := Cutoff(now);
      if prDt.Some? && cutoffDate.Some? && !Before(prDt.value, cutoffDate.value) {
        var quarter := QuarterInfo(prCreatedDate, parse);
        var j := IndexOfKey(quarterlyData, quarter);
        assert quarter == LabelOf(prDt.value);
        if j.Some? {
          updated := quarterlyData[j.value := (quarter, CountPr(quarterlyData[j.value].1, pr.merged))];
          hit := j;
        } else {
          assert quarter !in KeysOf(table);
        }
      }
    }
    PrTableAfter(prs, k, table, now, parse, quarterlyData, updated, hit);
  }

  /** The table after the pull-request loop: each quarter's entry with the pull
      requests counted in it. */
  function TableWithPrs(quarterlyData: QuarterTable, prs: seq<PullRecord>, now: DateTime,
                        parse: string -> Option<DateTime>): QuarterTable
  {
    seq(|quarterlyData|, i requires 0 <= i < |quarterlyData| =>
      (quarterlyData[i].0, WithPrs(quarterlyData[i].1, prs, quarterlyData[i].0, now, parse)))
  }

  /** The pull-request loop: every pull request adds one to its author's count; one
      whose creation date is counted in a quarter of the table adds to that quarter's
      pull-request count, and to its merged count when merged. */
  method CountPullRequests(prs: seq<PullRecord>, quarterlyData: QuarterTable, now: DateTime,
                           parse: string -> Option<DateTime>)
    returns (prAuthors: seq<(AuthorKey, nat)>, updated: QuarterTable)
    requires DistinctKeys(quarterlyData)
    ensures prAuthors == Tally(SeqMap(PrAuthor, prs))
    ensures updated == TableWithPrs(quarterlyData, prs, now, parse)
    ensures |updated| == |quarterlyData|
    ensures forall i :: 0 <= i < |quarterlyData| ==>
      updated[i] == (quarterlyData[i].0, WithPrs(quarterlyData[i].1, prs, quarterlyData[i].0, now, parse))
  {
    forall i | 0 <= i < |quarterlyData| {
      WithNoPrs(quarterlyData[i].1, prs, quarterlyData[i].0, now, parse);
    }
    updated := quarterlyData;
    prAuthors := [];
    for k := 0 to |prs|
      invariant prAuthors == Tally(SeqMap(PrAuthor, prs[..k]))
      invariant |updated| == |quarterlyData|
      invariant forall i :: 0 <= i < |quarterlyData| ==>
        updated[i] == (quarterlyData[i].0, WithPrs(quarterlyData[i].1, prs[..k], quarterlyData[i].0, now, parse))
    {
      var pr := prs[k];
      var prAuthor := PrAuthor(pr);
      prAuthors := Increment(prAuthors, prAuthor);
      PrAuthorTallyStep(prs, k);
      updated := AddPrToQuarter(updated, pr, now, parse, quarterlyData, prs, k);
    }
    assert prs[..|prs|] == prs;
  }

  lemma PrAuthorTallyStep(prs: seq<PullRecord>, k: nat)
    requires k < |prs|
    ensures Tally(SeqMap(PrAuthor, prs[..k + 1])) == Increment(Tally(SeqMap(PrAuthor, prs[..k])), PrAuthor(prs[k]))
  {
    assert prs[..k + 1] == prs[..k] + [prs[k]];
    SeqMapAppend(PrAuthor, prs[..k], [prs[k]]);
    var names := SeqMap(PrAuthor, prs[..k + 1]);
    assert names[..|names| - 1] == SeqMap(PrAuthor, prs[..k]);
  }
}
