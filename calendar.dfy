/** Dates and calendar quarters as the quarter helpers of backend/app/github.py use
    them: Python `datetime` values to the second, their ordering, subtraction of a
    whole number of days, and the "YYYY Qn" quarter labels. */
module Calendar {
  import opened Common

  datatype RawDateTime = RawDateTime(year: int, month: int, day: int, hour: int, minute: int, second: int)

  predicate IsLeapYear(y: int)
  {
    y % 4 == 0 && (y % 100 != 0 || y % 400 == 0)
  }

  function DaysInMonth(y: int, m: int): int
  {
    if m == 2 then (if IsLeapYear(y) then 29 else 28)
    else if m == 4 || m == 6 || m == 9 || m == 11 then 30
    else 31
  }

  /** The range `datetime` accepts: years 1 to 9999. */
  predicate ValidDateTime(d: RawDateTime)
  {
    1 <= d.year <= 9999 && 1 <= d.month <= 12 && 1 <= d.day <= DaysInMonth(d.year, d.month) &&
    0 <= d.hour < 24 && 0 <= d.minute < 60 && 0 <= d.second < 60
  }

  type DateTime = d: RawDateTime | ValidDateTime(d) witness RawDateTime(1970, 1, 1, 0, 0, 0)

  /** `a < b` on datetimes: field by field, most significant first. */
  predicate Before(a: DateTime, b: DateTime)
  {
    if a.year != b.year then a.year < b.year
    else if a.month != b.month then a.month < b.month
    else if a.day != b.day then a.day < b.day
    else if a.hour != b.hour then a.hour < b.hour
    else if a.minute != b.minute then a.minute < b.minute
    else a.second < b.second
  }

  lemma BeforeTransitive(a: DateTime, b: DateTime, c: DateTime)
    requires Before(a, b) && Before(b, c)
    ensures Before(a, c)
  {
  }

  lemma BeforeTotal(a: DateTime, b: DateTime)
    ensures a == b || Before(a, b) || Before(b, a)
    ensures !(Before(a, b) && Before(b, a))
  {
  }

  /** A parsed timestamp. Python refuses to order an offset-aware datetime against a
      naive one; aware values are kept in UTC, which is what GitHub sends. */
  datatype Stamp = Stamp(at: DateTime, aware: bool)

  // ---------------------------------------------------------------------------
  // Subtracting days (`dt - timedelta(days=n)`)
  // ---------------------------------------------------------------------------

  /** The same time of day on the previous calendar day; None below 0001-01-01, where
      Python raises OverflowError. */
  function PrevDay(d: DateTime): (r: Option<DateTime>)
    ensures r.None? <==> d.year == 1 && d.month == 1 && d.day == 1
    ensures r.Some? ==> Before(r.value, d)
  {
    if d.day > 1 then Some(d.(day := d.day - 1))
    else if d.month > 1 then Some(d.(month := d.month - 1, day := DaysInMonth(d.year, d.month - 1)))
    else if d.year > 1 then Some(d.(year := d.year - 1, month := 12, day := 31))
    else None
  }

  /** `d - timedelta(days=n)`, None when the result would fall before year 1. */
  function MinusDays(d: DateTime, n: nat): Option<DateTime>
    decreases n
  {
    if n == 0 then Some(d)
    else match PrevDay(d)
      case None => None
      case Some(p) => MinusDays(p, n - 1)
  }

  /** Going back a positive number of days lands strictly earlier. */
  lemma {:induction false} MinusDaysEarlier(d: DateTime, n: nat)
    requires n > 0 && MinusDays(d, n).Some?
    ensures Before(MinusDays(d, n).value, d)
    decreases n
  {
    var p := PrevDay(d).value;
    if n > 1 {
      MinusDaysEarlier(p, n - 1);
      BeforeTransitive(MinusDays(d, n).value, p, d);
    }
  }

  /** From year 2 onwards, going back at most 365 days never overflows. */
  lemma {:induction false} MinusDaysDefinedLate(d: DateTime, n: nat)
    requires d.year > 1 && n <= 365
    ensures MinusDays(d, n).Some?
    decreases n
  {
    if n > 0 {
      var p := PrevDay(d).value;
      if p.year > 1 {
        MinusDaysDefinedLate(p, n - 1);
      } else {
        assert p.month == 12 && p.day == 31;
        MinusDaysDefinedInYearOne(p, n - 1);
      }
    }
  }

  lemma {:induction false} MinusDaysDefinedInYearOne(d: DateTime, n: nat)
    requires d.year == 1 && d.month == 12 && d.day == 31 && n <= 364
    ensures MinusDays(d, n).Some?
  {
    DayOfYearOneSteps(d, n);
  }

  /** Day number within year 1, counting 0001-01-01 as 0. */
  function DayOfYearOne(d: DateTime): nat
    requires d.year == 1
  {
    CumulativeDays(d.month) + d.day - 1
  }

  function CumulativeDays(m: int): nat
    requires 1 <= m <= 12
  {
    if m == 1 then 0 else CumulativeDays(m - 1) + DaysInMonth(1, m - 1)
  }

  lemma {:induction false} DayOfYearOneSteps(d: DateTime, n: nat)
    requires d.year == 1 && n <= DayOfYearOne(d)
    ensures MinusDays(d, n).Some?
    decreases n
  {
    if n > 0 {
      var p := PrevDay(d);
      assert p.Some?;
      if d.day == 1 {
        assert DayOfYearOne(p.value) == DayOfYearOne(d) - 1;
      }
      DayOfYearOneSteps(p.value, n - 1);
    }
  }

  // ---------------------------------------------------------------------------
  // Quarter labels
  // ---------------------------------------------------------------------------

  /** `(month - 1) // 3 + 1`. */
  function QuarterOfMonth(month: int): (q: int)
    requires 1 <= month <= 12
    ensures 1 <= q <= 4
    ensures 3 * (q - 1) + 1 <= month <= 3 * q
  {
    (month - 1) / 3 + 1
  }

  /** A label "YYYY Qn", or "Unknown" for a date that did not parse. */
  datatype Label = Quarter(year: nat, q: int) | Unknown

  predicate WellFormedLabel(l: Label)
  {
    l.Quarter? ==> 1 <= l.q <= 4
  }

  /** The label of the quarter a datetime falls in. */
  function LabelOf(d: DateTime): (l: Label)
    ensures l.Quarter? && WellFormedLabel(l) && l.year == d.year
  {
    Quarter(d.year, QuarterOfMonth(d.month))
  }

  /** The quarter just before `l`: Q1 wraps to Q4 of the previous year. */
  function PreviousQuarter(l: Label): (p: Label)
    requires l.Quarter? && WellFormedLabel(l) && (l.q > 1 || l.year > 0)
    ensures p.Quarter? && WellFormedLabel(p)
  {
    if l.q > 1 then Quarter(l.year, l.q - 1) else Quarter(l.year - 1, 4)
  }

  /** Quarters numbered consecutively across years. */
  function QuarterIndex(l: Label): int
    requires l.Quarter?
  {
    4 * l.year + l.q - 1
  }

  lemma PreviousQuarterIndex(l: Label)
    requires l.Quarter? && WellFormedLabel(l) && (l.q > 1 || l.year > 0)
    ensures QuarterIndex(PreviousQuarter(l)) == QuarterIndex(l) - 1
  {
  }

  /** Labels of well-formed quarters are equal exactly when their indices are. */
  lemma QuarterIndexInjective(a: Label, b: Label)
    requires a.Quarter? && b.Quarter? && WellFormedLabel(a) && WellFormedLabel(b)
    ensures QuarterIndex(a) == QuarterIndex(b) <==> a == b
  {
  }

  // ---------------------------------------------------------------------------
  // Label text
  // ---------------------------------------------------------------------------

  function DigitChar(d: int): char
    requires 0 <= d < 10
  {
    ('0' as int + d) as char
  }

  predicate IsDigit(c: char)
  {
    '0' <= c <= '9'
  }

  function DigitValue(c: char): int
    requires IsDigit(c)
  {
    c as int - '0' as int
  }

  /** `str(n)` for a natural number: decimal, no leading zeros. */
  function NatText(n: nat): (s: string)
    ensures |s| >= 1 && forall i :: 0 <= i < |s| ==> IsDigit(s[i])
  {
    if n < 10 then [DigitChar(n)] else NatText(n / 10) + [DigitChar(n % 10)]
  }

  function ParseNat(s: string): nat
    requires forall i :: 0 <= i < |s| ==> IsDigit(s[i])
  {
    if s == [] then 0 else 10 * ParseNat(s[..|s| - 1]) + DigitValue(s[|s| - 1])
  }

  lemma {:induction false} ParseNatText(n: nat)
    ensures ParseNat(NatText(n)) == n
  {
    var s := NatText(n);
    if n < 10 {
      assert s[..|s| - 1] == [];
    } else {
      assert s[..|s| - 1] == NatText(n / 10);
      ParseNatText(n / 10);
    }
  }

  /** The f-string `f"{year} Q{quarter}"`, or "Unknown". */
  function LabelText(l: Label): string
    requires WellFormedLabel(l)
  {
    match l
    case Unknown => "Unknown"
    case Quarter(y, q) => NatText(y) + " Q" + [DigitChar(q)]
  }

  /** Reads a label back from its text. */
  function ParseLabel(s: string): Option<Label>
  {
    if s == "Unknown" then Some(Unknown)
    else if |s| >= 4 && s[|s| - 3..|s| - 1] == " Q" && '1' <= s[|s| - 1] <= '4' &&
            forall i :: 0 <= i < |s| - 3 ==> IsDigit(s[i])
    then Some(Quarter(ParseNat(s[..|s| - 3]), DigitValue(s[|s| - 1])))
    else None
  }

  /** Rendering a label loses nothing. */
  lemma ParseLabelText(l: Label)
    requires WellFormedLabel(l)
    ensures ParseLabel(LabelText(l)) == Some(l)
  {
    if l.Quarter? {
      var s := LabelText(l);
      var y := NatText(l.year);
      assert s[..|s| - 3] == y;
      assert s[|s| - 3..|s| - 1] == " Q";
      assert s != "Unknown" by {
        assert IsDigit(s[0]);
      }
      ParseNatText(l.year);
    }
  }

  /** Two labels have the same text exactly when they are the same label, so comparing
      the strings, as the source does, is comparing the quarters. */
  lemma LabelTextInjective(a: Label, b: Label)
    requires WellFormedLabel(a) && WellFormedLabel(b)
    ensures LabelText(a) == LabelText(b) <==> a == b
  {
    if LabelText(a) == LabelText(b) {
      ParseLabelText(a);
      ParseLabelText(b);
    }
  }
}
