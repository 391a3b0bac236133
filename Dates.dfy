/**
 * Calendar dates of the `quarter_date` column and the `"%b %Y"` quarter
 * label derived from them (app.py line 24).
 */
module Dates {

  type Month = m: int | 1 <= m <= 12 witness 1
  type Day = d: int | 1 <= d <= 31 witness 1
  /** The years a pandas nanosecond timestamp can hold. */
  type Year = y: int | 1677 <= y <= 2262 witness 2000

  datatype Date = Date(year: Year, month: Month, day: Day)

  /** A quarter label such as "Mar 2024". */
  type Label = string

  /** Chronological order on timestamps: lexicographic on (year, month, day). */
  predicate DateLe(a: Date, b: Date) {
    a.year < b.year
    || (a.year == b.year && (a.month < b.month || (a.month == b.month && a.day <= b.day)))
  }

  /** A day count that is monotone in calendar order: the sort key of `quarter_date`. */
  function Ordinal(d: Date): int {
    (d.year * 12 + (d.month - 1)) * 31 + (d.day - 1)
  }

  /** Sorting by `Ordinal` is sorting chronologically, and equal ordinals are equal dates. */
  lemma OrdinalOrder(a: Date, b: Date)
    ensures DateLe(a, b) <==> Ordinal(a) <= Ordinal(b)
    ensures Ordinal(a) == Ordinal(b) ==> a == b
  {
    var ra := (a.month - 1) * 31 + (a.day - 1);
    var rb := (b.month - 1) * 31 + (b.day - 1);
    assert 0 <= ra < 372 && 0 <= rb < 372;
    assert Ordinal(a) == a.year * 372 + ra && Ordinal(b) == b.year * 372 + rb;
    if a.year < b.year {
      assert a.year * 372 + 372 <= b.year * 372;
    } else if a.year > b.year {
      assert b.year * 372 + 372 <= a.year * 372;
    }
  }

  /** `%b` in the C locale. */
  function MonthAbbrev(m: Month): (s: string)
    ensures |s| == 3
  {
    ["Jan", "Feb", "Mar", "Apr", "May", "Jun", "Jul", "Aug", "Sep", "Oct", "Nov", "Dec"][m - 1]
  }

  /** The month an abbreviation names; 0 for anything else. */
  function MonthOfAbbrev(s: string): int {
    if s == "Jan" then 1 else if s == "Feb" then 2 else if s == "Mar" then 3
    else if s == "Apr" then 4 else if s == "May" then 5 else if s == "Jun" then 6
    else if s == "Jul" then 7 else if s == "Aug" then 8 else if s == "Sep" then 9
    else if s == "Oct" then 10 else if s == "Nov" then 11 else if s == "Dec" then 12
    else 0
  }

  function Digit(n: int): char
    requires 0 <= n <= 9
  {
    (48 + n) as char
  }

  function DigitValue(c: char): int {
    c as int - 48
  }

  /** `%Y`: the year in four decimal digits. */
  function YearText(y: Year): (s: string)
    ensures |s| == 4
  {
    [Digit(y / 1000), Digit(y / 100 % 10), Digit(y / 10 % 10), Digit(y % 10)]
  }

  function YearOfText(s: string): int
    requires |s| == 4
  {
    1000 * DigitValue(s[0]) + 100 * DigitValue(s[1]) + 10 * DigitValue(s[2]) + DigitValue(s[3])
  }

  /** `strftime("%b %Y")` of a quarter date. */
  function QuarterLabel(d: Date): (l: Label)
    ensures |l| == 8 && l[3] == ' '
  {
    MonthAbbrev(d.month) + " " + YearText(d.year)
  }

  /** Reads the month and year back from a label. */
  function ParseLabel(l: Label): (int, int)
    requires |l| == 8
  {
    (MonthOfAbbrev(l[..3]), YearOfText(l[4..]))
  }

  lemma MonthRoundTrip(m: Month)
    ensures MonthOfAbbrev(MonthAbbrev(m)) == m
  {
    var names := ["Jan", "Feb", "Mar", "Apr", "May", "Jun", "Jul", "Aug", "Sep", "Oct", "Nov", "Dec"];
    assert MonthAbbrev(m) == names[m - 1];
  }

  lemma {:induction false} YearRoundTrip(y: Year)
    ensures YearOfText(YearText(y)) == y
  {
    var a, b, c, d := y / 1000, y / 100 % 10, y / 10 % 10, y % 10;
    assert y / 10 == (y / 100) * 10 + c;
    assert y / 100 == a * 10 + b;
    assert y == (y / 10) * 10 + d;
  }

  /** The label determines the month and the year of a date. */
  lemma LabelRoundTrip(d: Date)
    ensures ParseLabel(QuarterLabel(d)) == (d.month as int, d.year as int)
  {
    var l := QuarterLabel(d);
    assert l[..3] == MonthAbbrev(d.month);
    assert l[4..] == YearText(d.year);
    MonthRoundTrip(d.month);
    YearRoundTrip(d.year);
  }

  /** Two quarter dates share a label exactly when they share month and year. */
  lemma SameLabel(a: Date, b: Date)
    ensures QuarterLabel(a) == QuarterLabel(b) <==> a.month == b.month && a.year == b.year
  {
    LabelRoundTrip(a);
    LabelRoundTrip(b);
  }
}
