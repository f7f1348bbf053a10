/** The quarter helpers of backend/app/github.py: the quarter label of a date, the last
    four quarters, the date range behind each quarter filter, the financial-year labels,
    and the filter that keeps the GitHub items dated in the chosen quarters. The clock is
    the parameter `now`; ISO-8601 parsing is the parameter `parse`. */
module Quarters {
  import opened Common
  import opened Calendar
  import Security

  // ---------------------------------------------------------------------------
  // Labels of the current and recent quarters
  // ---------------------------------------------------------------------------

  /** get_quarter_info: the quarter the parsed date falls in, "Unknown" when the text
      does not parse. */
  function QuarterInfo(dateStr: string, parse: string -> Option<DateTime>): (l: Label)
    ensures WellFormedLabel(l)
    ensures l.Unknown? <==> parse(dateStr).None?
    ensures l.Quarter? ==> l.year == parse(dateStr).value.year &&
                           3 * (l.q - 1) + 1 <= parse(dateStr).value.month <= 3 * l.q
  {
    match parse(dateStr)
    case None => Unknown
    case Some(d) => LabelOf(d)
  }

  /** get_current_quarter. */
  function CurrentQuarter(now: DateTime): (l: Label)
    ensures l.Quarter? && WellFormedLabel(l) && l.year == now.year
    ensures 3 * (l.q - 1) + 1 <= now.month <= 3 * l.q
  {
    LabelOf(now)
  }

  /** The `n` quarters from `l` backwards, newest first, each one quarter before the
      one ahead of it. */
  function QuartersBack(l: Label, n: nat): seq<Label>
    requires l.Quarter? && WellFormedLabel(l) && QuarterIndex(l) >= n
    decreases n
  {
    if n == 0 then []
    else
      PreviousQuarterIndex(l);
      [l] + QuartersBack(PreviousQuarter(l), n - 1)
  }

  lemma {:induction false} QuartersBackMeaning(l: Label, n: nat)
    requires l.Quarter? && WellFormedLabel(l) && QuarterIndex(l) >= n
    ensures |QuartersBack(l, n)| == n
    ensures forall i :: 0 <= i < n ==>
      QuartersBack(l, n)[i].Quarter? && WellFormedLabel(QuartersBack(l, n)[i]) &&
      QuarterIndex(QuartersBack(l, n)[i]) == QuarterIndex(l) - i
    decreases n
  {
    if n > 0 {
      PreviousQuarterIndex(l);
      QuartersBackMeaning(PreviousQuarter(l), n - 1);
    }
  }

  /** The quarters of the last year: the current one and the three before it. */
  function LastYearQuarters(now: DateTime): seq<Label>
  {
    QuartersBack(CurrentQuarter(now), 4)
  }

  /** get_quarters_last_year: the current quarter and the three before it, newest first. */
  method QuartersLastYear(now: DateTime) returns (quarters: seq<Label>)
    ensures quarters == LastYearQuarters(now)
    ensures |quarters| == 4 && quarters[0] == CurrentQuarter(now)
    ensures forall i :: 0 <= i < 4 ==>
      quarters[i].Quarter? && WellFormedLabel(quarters[i]) &&
      QuarterIndex(quarters[i]) == QuarterIndex(CurrentQuarter(now)) - i
    ensures forall i, j :: 0 <= i < j < 4 ==> quarters[i] != quarters[j]
  {
    var currentQuarter := QuarterOfMonth(now.month);
    var currentYear := now.year;
    quarters := [];
    for i := 0 to 4
      invariant |quarters| == i
      invariant forall k :: 0 <= k < i ==>
        quarters[k].Quarter? && WellFormedLabel(quarters[k]) &&
        QuarterIndex(quarters[k]) == QuarterIndex(CurrentQuarter(now)) - k
    {
      var quarter := currentQuarter - i;
      var year := currentYear;
      if quarter <= 0 {
        quarter := quarter + 4;
        year := year - 1;
      }
      quarters := quarters + [Quarter(year, quarter)];
    }
    QuarterIndexInjective(quarters[0], CurrentQuarter(now));
    var expected := LastYearQuarters(now);
    QuartersBackMeaning(CurrentQuarter(now), 4);
    forall i | 0 <= i < 4
      ensures quarters[i] == expected[i]
    {
      QuarterIndexInjective(quarters[i], expected[i]);
    }
  }

  // ---------------------------------------------------------------------------
  // quarter_to_epoch_range and get_default_date_range
  // ---------------------------------------------------------------------------

  /** A range of datetimes, both ends included. */
  datatype Range = Range(start: DateTime, end: DateTime)

  predicate InRange(d: DateTime, r: Range)
  {
    !Before(d, r.start) && !Before(r.end, d)
  }

  /** The last day of the quarter that starts in `startMonth`, as the source spells it. */
  function QuarterEndDay(startMonth: int): int
  {
    if startMonth == 10 then 31
    else if startMonth == 7 then 30
    else if startMonth == 4 then 30
    else 31
  }

  /** The calendar year the financial year (April to March) containing `now` starts in. */
  function FinancialYear(now: DateTime): nat
  {
    if now.month >= 4 then now.year else now.year - 1
  }

  /** get_default_date_range: the 90 days up to now; None where the subtraction would
      fall before year 1 (OverflowError). */
  function DefaultDateRange(now: DateTime): Option<Range>
  {
    match MinusDays(now, 90)
    case None => None
    case Some(start) => Some(Range(start, now))
  }

  /** quarter_to_epoch_range, before the conversion to epoch seconds: the current
      quarter, the current financial year, the past 365 days, or by default the past 90
      days. None where Python raises: a `datetime` outside years 1..9999 (ValueError) or
      a subtraction below year 1 (OverflowError). */
  function QuarterRange(quarterFilter: string, now: DateTime): Option<Range>
  {
    if quarterFilter == "current" then
      var startMonth := ((now.month - 1) / 3) * 3 + 1;
      Some(Range(RawDateTime(now.year, startMonth, 1, 0, 0, 0),
                 RawDateTime(now.year, startMonth + 2, QuarterEndDay(startMonth), 23, 59, 59)))
    else if quarterFilter == "last_financial" then
      var fyStartYear := FinancialYear(now);
      if 1 <= fyStartYear && fyStartYear + 1 <= 9999 then
        Some(Range(RawDateTime(fyStartYear, 4, 1, 0, 0, 0), RawDateTime(fyStartYear + 1, 3, 31, 23, 59, 59)))
      else None
    else if quarterFilter == "past_year" then
      match MinusDays(now, 365)
      case None => None
      case Some(start) => Some(Range(start, now))
    else
      DefaultDateRange(now)
  }

  /** The 'current' range holds exactly the datetimes of the current quarter. */
  lemma CurrentRangeIsCurrentQuarter(now: DateTime, d: DateTime)
    ensures QuarterRange("current", now).Some?
    ensures InRange(d, QuarterRange("current", now).value) <==> LabelOf(d) == CurrentQuarter(now)
  {
  }

  /** The 'last_financial' range exists unless it would leave years 1..9999, and then
      holds exactly the datetimes of the financial year containing `now`. */
  lemma FinancialRangeIsFinancialYear(now: DateTime, d: DateTime)
    ensures QuarterRange("last_financial", now).Some? <==> 1 <= FinancialYear(now) < 9999
    ensures QuarterRange("last_financial", now).Some? ==>
      (InRange(d, QuarterRange("last_financial", now).value) <==> FinancialYear(d) == FinancialYear(now))
  {
  }

  /** The 'past_year' and default ranges end now and start earlier; from year 2 on they
      always exist. */
  lemma LookbackRangeEndsNow(quarterFilter: string, now: DateTime)
    requires quarterFilter != "current" && quarterFilter != "last_financial"
    ensures now.year > 1 ==> QuarterRange(quarterFilter, now).Some?
    ensures QuarterRange(quarterFilter, now).Some? ==>
      QuarterRange(quarterFilter, now).value.end == now && Before(QuarterRange(quarterFilter, now).value.start, now)
  {
    var n := if quarterFilter == "past_year" then 365 else 90;
    if now.year > 1 {
      MinusDaysDefinedLate(now, n);
    }
    if MinusDays(now, n).Some? {
      MinusDaysEarlier(now, n);
    }
  }

  // ---------------------------------------------------------------------------
  // get_financial_year_quarters and the quarters a filter keeps
  // ---------------------------------------------------------------------------

  /** get_financial_year_quarters: the labels Q1..Q4 of the year the financial year
      starts in. */
  function FinancialYearQuarters(now: DateTime): (qs: seq<Label>)
    ensures |qs| == 4 && forall i :: 0 <= i < 4 ==> qs[i].Quarter? && WellFormedLabel(qs[i])
  {
    var fyYear := FinancialYear(now);
    [Quarter(fyYear, 1), Quarter(fyYear, 2), Quarter(fyYear, 3), Quarter(fyYear, 4)]
  }

  /** The four labels are the calendar quarters of the year the financial year starts
      in, January to December. */
  lemma FinancialQuartersAreCalendarYear(now: DateTime, d: DateTime)
    ensures LabelOf(d) in FinancialYearQuarters(now) <==> d.year == FinancialYear(now)
  {
    var qs := FinancialYearQuarters(now);
    if d.year == FinancialYear(now) {
      assert LabelOf(d) == qs[QuarterOfMonth(d.month) - 1];
    }
  }

  /** The labels and the 'last_financial' range cover different spans: the labels
      include January to March of the starting year, which lies before the range, and
      leave out January to March of the following year, with which the range ends. */
  lemma FinancialLabelsMissTheRange(now: DateTime)
    requires QuarterRange("last_financial", now).Some?
    ensures var r := QuarterRange("last_financial", now).value;
      InRange(r.end, r) && LabelOf(r.end) !in FinancialYearQuarters(now)
    ensures var r := QuarterRange("last_financial", now).value;
      forall d: DateTime :: InRange(d, r) ==> LabelOf(d) != Quarter(FinancialYear(now), 1)
    ensures Quarter(FinancialYear(now), 1) in FinancialYearQuarters(now)
  {
    var r := QuarterRange("last_financial", now).value;
    FinancialQuartersAreCalendarYear(now, r.end);
    forall d: DateTime | InRange(d, r)
      ensures LabelOf(d) != Quarter(FinancialYear(now), 1)
    {
      FinancialRangeIsFinancialYear(now, d);
    }
    assert FinancialYearQuarters(now)[0] == Quarter(FinancialYear(now), 1);
  }

  /** The labels an item's date must carry to be kept. */
  function TargetQuarters(quarterFilter: string, now: DateTime): (targets: seq<Label>)
    ensures forall l :: l in targets ==> l.Quarter? && WellFormedLabel(l)
  {
    if quarterFilter == "last_financial" then FinancialYearQuarters(now) else [CurrentQuarter(now)]
  }

  /** 'last_financial' keeps the dates of the calendar year the financial year starts in;
      every other filter keeps the dates of the current quarter. */
  lemma TargetQuartersMeaning(quarterFilter: string, now: DateTime, d: DateTime)
    ensures LabelOf(d) in TargetQuarters(quarterFilter, now) <==>
      if quarterFilter == "last_financial" then d.year == FinancialYear(now)
      else LabelOf(d) == CurrentQuarter(now)
  {
    if quarterFilter == "last_financial" {
      FinancialQuartersAreCalendarYear(now, d);
    }
  }

  // ---------------------------------------------------------------------------
  // extract_date_from_item
  // ---------------------------------------------------------------------------

  /** The exception `.get` raises on something that is not a dictionary. */
  datatype Raised = AttributeError

  /** `d.get(key, default)` on a dictionary's entries. */
  function GetOr(entries: seq<Security.Entry>, key: string, default: Security.Value): (v: Security.Value)
    ensures (forall i :: 0 <= i < |entries| ==> entries[i].key != key) ==> v == default
    ensures (exists i :: 0 <= i < |entries| && entries[i].key == key) ==> Security.Entry(key, v) in entries
  {
    if entries == [] then default
    else if entries[0].key == key then entries[0].val
    else GetOr(entries[1..], key, default)
  }

  /** `v.get(key, default)` on any value: AttributeError unless it is a dictionary. */
  function GetAttr(v: Security.Value, key: string, default: Security.Value): Result<Security.Value, Raised>
  {
    if v.Dict? then Ok(GetOr(v.entries, key, default)) else Err(AttributeError)
  }

  /** The six candidate dates, evaluated eagerly in the order written: the commit
      author's date, the committer's date, `created_at`, `updated_at`, `date`, and the
      commit author's date again when the author is a dictionary. */
  function DateCandidates(entries: seq<Security.Entry>): Result<seq<Security.Value>, Raised>
  {
    var commit := GetOr(entries, "commit", Security.Dict([]));
    match GetAttr(commit, "author", Security.Dict([]))
    case Err(e) => Err(e)
    case Ok(author) =>
      match GetAttr(author, "date", Security.Null)
      case Err(e) => Err(e)
      case Ok(authorDate) =>
        match GetAttr(commit, "committer", Security.Dict([]))
        case Err(e) => Err(e)
        case Ok(committer) =>
          match GetAttr(committer, "date", Security.Null)
          case Err(e) => Err(e)
          case Ok(committerDate) =>
            Ok([authorDate, committerDate,
                GetOr(entries, "created_at", Security.Null), GetOr(entries, "updated_at", Security.Null),
                GetOr(entries, "date", Security.Null),
                if author.Dict? then authorDate else Security.Null])
  }

  /** A candidate that counts as a date: a non-empty string. */
  predicate IsDateText(v: Security.Value)
  {
    v.Str? && v.s != []
  }

  /** The first candidate that is a non-empty string. */
  function FirstDate(candidates: seq<Security.Value>): Option<string>
  {
    if candidates == [] then None
    else if IsDateText(candidates[0]) then Some(candidates[0].s)
    else FirstDate(candidates[1..])
  }

  /** `FirstDate` is None exactly when no candidate is a date, and otherwise the text of
      the first candidate that is one. */
  lemma {:induction false} FirstDateMeaning(candidates: seq<Security.Value>)
    ensures FirstDate(candidates).None? <==> forall i :: 0 <= i < |candidates| ==> !IsDateText(candidates[i])
    ensures FirstDate(candidates).Some? ==>
      FirstDate(candidates).value != [] &&
      exists i :: 0 <= i < |candidates| && candidates[i] == Security.Str(FirstDate(candidates).value) &&
                  forall j :: 0 <= j < i ==> !IsDateText(candidates[j])
  {
    if candidates != [] && !IsDateText(candidates[0]) {
      var tail := candidates[1..];
      FirstDateMeaning(tail);
      assert forall i :: 0 <= i < |tail| ==> tail[i] == candidates[i + 1];
      if FirstDate(tail).Some? {
        var i :| 0 <= i < |tail| && tail[i] == Security.Str(FirstDate(tail).value) &&
                 forall j :: 0 <= j < i ==> !IsDateText(tail[j]);
        assert candidates[i + 1] == Security.Str(FirstDate(candidates).value);
        assert forall j :: 0 <= j < i + 1 ==> !IsDateText(candidates[j]) by {
          forall j | 0 <= j < i + 1
            ensures !IsDateText(candidates[j])
          {
            if j > 0 {
              assert candidates[j] == tail[j - 1];
            }
          }
        }
      } else {
        forall i | 0 <= i < |candidates|
          ensures !IsDateText(candidates[i])
        {
          if i > 0 {
            assert candidates[i] == tail[i - 1];
          }
        }
      }
    }
  }

  /** extract_date_from_item: the first candidate date; AttributeError when `commit`,
      its `author` or its `committer` is present but not a dictionary. */
  function ExtractDate(entries: seq<Security.Entry>): Result<Option<string>, Raised>
  {
    match DateCandidates(entries)
    case Err(e) => Err(e)
    case Ok(candidates) => Ok(FirstDate(candidates))
  }

  /** The sixth candidate repeats the first and never changes the answer. */
  lemma SixthCandidateRedundant(entries: seq<Security.Entry>)
    requires DateCandidates(entries).Ok?
    ensures |DateCandidates(entries).value| == 6
    ensures ExtractDate(entries) == Ok(FirstDate(DateCandidates(entries).value[..5]))
  {
    var c := DateCandidates(entries).value;
    var five := c[..5];
    assert c[5] == c[0];
    if FirstDate(five).None? {
      FirstDateMeaning(five);
      FirstDateMeaning(c);
      assert forall i :: 0 <= i < 6 ==> !IsDateText(c[i]) by {
        assert forall i :: 0 <= i < 5 ==> c[i] == five[i];
      }
    } else {
      FirstDateOfPrefix(c, 5);
    }
  }

  /** When a prefix holds a date, the whole sequence yields that prefix's first date. */
  lemma {:induction false} FirstDateOfPrefix(c: seq<Security.Value>, n: nat)
    requires n <= |c| && FirstDate(c[..n]).Some?
    ensures FirstDate(c) == FirstDate(c[..n])
  {
    if c != [] && !IsDateText(c[0]) {
      assert c[..n][0] == c[0];
      assert c[..n][1..] == c[1..][..n - 1];
      FirstDateOfPrefix(c[1..], n - 1);
    }
  }

  // ---------------------------------------------------------------------------
  // filter_data_by_quarters
  // ---------------------------------------------------------------------------

  /** Whether filter_data_by_quarters keeps `item`: a dictionary whose extracted date
      has a quarter label among `targets`. Items whose extraction raises are skipped. */
  predicate KeptByQuarter(item: Security.Value, targets: seq<Label>, parse: string -> Option<DateTime>)
  {
    item.Dict? &&
    match ExtractDate(item.entries)
    case Err(_) => false
    case Ok(None) => false
    case Ok(Some(d)) => QuarterInfo(d, parse) in targets
  }

  /** The test as a function value, so that every mention of it is the same term. */
  function KeepInQuarters(targets: seq<Label>, parse: string -> Option<DateTime>): Security.Value -> bool
  {
    item => KeptByQuarter(item, targets, parse)
  }

  /** An item is kept exactly when it is a dictionary whose extracted date parses and
      falls in the financial year's calendar year ('last_financial') or in the current
      quarter (any other filter). */
  lemma KeptByQuarterMeaning(item: Security.Value, quarterFilter: string, now: DateTime, parse: string -> Option<DateTime>)
    ensures KeptByQuarter(item, TargetQuarters(quarterFilter, now), parse) <==>
      item.Dict? && ExtractDate(item.entries).Ok? && ExtractDate(item.entries).value.Some? &&
      var d := parse(ExtractDate(item.entries).value.value);
      d.Some? &&
      if quarterFilter == "last_financial" then d.value.year == FinancialYear(now)
      else LabelOf(d.value) == CurrentQuarter(now)
  {
    if item.Dict? && ExtractDate(item.entries).Ok? && ExtractDate(item.entries).value.Some? {
      var d := parse(ExtractDate(item.entries).value.value);
      if d.Some? {
        TargetQuartersMeaning(quarterFilter, now, d.value);
      }
    }
  }

  /** filter_data_by_quarters: the items dated in the target quarters, in their original
      order. */
  method FilterDataByQuarters(dataList: seq<Security.Value>, quarterFilter: string, now: DateTime,
                              parse: string -> Option<DateTime>)
    returns (filteredData: seq<Security.Value>)
    ensures filteredData == Filter(dataList, KeepInQuarters(TargetQuarters(quarterFilter, now), parse))
    ensures IsSubsequence(filteredData, dataList)
  {
    var quartersToKeep := TargetQuarters(quarterFilter, now);
    ghost var keep := KeepInQuarters(quartersToKeep, parse);
    filteredData := [];
    for i := 0 to |dataList|
      invariant filteredData == Filter(dataList[..i], keep)
    {
      var item := dataList[i];
      var keepItem := false;
      if item.Dict? {
        var extracted := ExtractDate(item.entries);
        if extracted.Ok? && extracted.value.Some? {
          var itemQuarter := QuarterInfo(extracted.value.value, parse);
          keepItem := itemQuarter in quartersToKeep;
        }
      }
      assert keepItem == keep(item);
      FilterStep(dataList, i, keep, keepItem);
      if keepItem {
        filteredData := filteredData + [item];
      }
    }
    assert dataList[..|dataList|] == dataList;
    FilterIsSubsequence(dataList, keep);
  }
}
