/**
 * Local calendar dates as the dashboard aggregator reads them from
 * JavaScript `Date` values: the civil year, month and day plus the time
 * of day, compared chronologically, keyed by month as `YYYY-MM`, and
 * named in English.
 */
module CivilDate {
  import opened Text

  type Month = m: int | 1 <= m <= 12 witness 1
  type Day = d: int | 1 <= d <= 31 witness 1
  type Millis = ms: int | 0 <= ms < 86_400_000

  /** A local instant: civil date and milliseconds since local midnight. */
  datatype Date = Date(year: int, month: Month, day: Day, millis: Millis)

  const LastMillis: Millis := 86_399_999

  predicate IsLeap(y: int) {
    (y % 4 == 0 && y % 100 != 0) || y % 400 == 0
  }

  function DaysIn(y: int, m: Month): (n: int)
    ensures 28 <= n <= 31
    ensures m != 2 ==> n == (if m == 4 || m == 6 || m == 9 || m == 11 then 30 else 31)
  {
    if m == 2 then (if IsLeap(y) then 29 else 28)
    else if m == 4 || m == 6 || m == 9 || m == 11 then 30
    else 31
  }

  /** The day exists in its month. */
  predicate ValidDate(d: Date) {
    d.day <= DaysIn(d.year, d.month)
  }

  /** Chronological order, `a <= b` on two `Date` values. */
  predicate Le(a: Date, b: Date) {
    a.year < b.year
    || (a.year == b.year && a.month < b.month)
    || (a.year == b.year && a.month == b.month && a.day < b.day)
    || (a.year == b.year && a.month == b.month && a.day == b.day && a.millis <= b.millis)
  }

  lemma LeTotal(a: Date, b: Date)
    ensures Le(a, b) || Le(b, a)
    ensures Le(a, b) && Le(b, a) ==> a == b
  {
  }

  /**
   * `d.setFullYear(d.getFullYear() + 1)`: same month, day and time one year
   * on; a 29 February with no counterpart rolls over to 1 March.
   */
  function AddOneYear(d: Date): (r: Date)
    ensures ValidDate(d) ==> ValidDate(r)
    ensures ValidDate(d) && !(d.month == 2 && d.day == 29) ==> r == d.(year := d.year + 1)
    ensures d.month == 2 && d.day == 29 && IsLeap(d.year + 1) ==> r == d.(year := d.year + 1)
    ensures d.month == 2 && d.day == 29 && !IsLeap(d.year + 1) ==> r == Date(d.year + 1, 3, 1, d.millis)
    ensures Le(d, r) && r != d
  {
    var y := d.year + 1;
    if d.day <= DaysIn(y, d.month) then d.(year := y)
    else Date(y, d.month + 1, d.day - DaysIn(y, d.month), d.millis)
  }

  // ---------------------------------------------------------------------
  // Month keys and names

  /** `${year}-${String(month).padStart(2, '0')}`. */
  function MonthKey(y: int, m: Month): string {
    IntStr(y) + "-" + Pad2(m)
  }

  /** The month key of a date. */
  function KeyOf(d: Date): string {
    MonthKey(d.year, d.month)
  }

  /** The key ends in a dash and two digits, preceded by the year. */
  lemma MonthKeyFormat(y: int, m: Month)
    ensures var k := MonthKey(y, m);
      |k| == |IntStr(y)| + 3 && k[..|IntStr(y)|] == IntStr(y) && k[|IntStr(y)|] == '-'
      && k[|k| - 2..] == Pad2(m) && IsDigit(k[|k| - 2]) && IsDigit(k[|k| - 1])
  {
    var d := NatStr(m);
    if m >= 10 {
      assert d == NatStr(m / 10) + [DigitChar(m % 10)];
    }
  }

  /** Different months have different keys. */
  lemma MonthKeyInjective(y1: int, m1: Month, y2: int, m2: Month)
    requires MonthKey(y1, m1) == MonthKey(y2, m2)
    ensures y1 == y2 && m1 == m2
  {
    var k1, k2 := MonthKey(y1, m1), MonthKey(y2, m2);
    assert |Pad2(m1)| == 2 && |Pad2(m2)| == 2;
    assert k1[|k1| - 2..] == Pad2(m1);
    assert k2[|k2| - 2..] == Pad2(m2);
    Pad2Injective(m1, m2);
    assert k1[..|k1| - 3] == IntStr(y1);
    assert k2[..|k2| - 3] == IntStr(y2);
    IntStrInjective(y1, y2);
  }

  const MonthNames: seq<string> := [
    "January", "February", "March", "April", "May", "June",
    "July", "August", "September", "October", "November", "December"
  ]

  /** `MONTH_NAMES[date.getMonth()]`. */
  function MonthName(m: Month): string {
    MonthNames[m - 1]
  }

  /** The first three letters of the month's name (`month.substring(0, 3)`). */
  function ShortMonthName(m: Month): (s: string)
    ensures |s| == 3 && s == MonthName(m)[..3]
  {
    MonthNames[m - 1][..3]
  }

  /**
   * `toLocaleDateString('en-US', { month: 'short', year: 'numeric' })`
   * for the first of a month, e.g. "Jan 2024".
   */
  function MonthLabel(y: int, m: Month): string {
    ShortMonthName(m) + " " + IntStr(y)
  }

  lemma MonthNamesDistinct()
    ensures forall i, j :: 0 <= i < j < 12 ==> MonthNames[i] != MonthNames[j]
  {
  }
}
