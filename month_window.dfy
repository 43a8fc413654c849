/**
 * The trailing window of twelve calendar months that every per-month
 * output of the dashboard aggregator is keyed by (`getLast12Months`).
 */
module MonthWindow {
  import opened Text
  import opened CivilDate

  /** One month of the window: its `YYYY-MM` key, label and first/last instants. */
  datatype Bucket = Bucket(key: string, monthLabel: string, year: int, month: Month, start: Date, end: Date)

  /** Months counted from year 0: consecutive months differ by one. */
  function MonthIndex(y: int, m: Month): int {
    12 * y + (m - 1)
  }

  /**
   * `new Date(y, m0, 1)` for a possibly out-of-range zero-based month
   * `m0`: JavaScript carries the excess into the year.
   */
  function FirstOfMonth(y: int, m0: int): (d: Date)
    ensures MonthIndex(d.year, d.month) == 12 * y + m0
    ensures d.day == 1 && d.millis == 0
  {
    Date(y + m0 / 12, m0 % 12 + 1, 1, 0)
  }

  /**
   * A bucket whose label and first/last instants are those of its
   * `YYYY-MM` month: `monthLabel` as `toLocaleDateString` renders the first
   * of the month, `start` at 00:00:00.000 on day 1, `end` at 23:59:59.999
   * on the month's last day.
   */
  predicate Fits(b: Bucket) {
    b.key == MonthKey(b.year, b.month) && b.monthLabel == MonthLabel(b.year, b.month)
    && b.start == Date(b.year, b.month, 1, 0)
    && b.end == Date(b.year, b.month, DaysIn(b.year, b.month), LastMillis)
  }

  /**
   * The bucket of the month a date falls in: the `{ key, monthLabel, year,
   * month, startDate, endDate }` object that `getLast12Months` pushes.
   */
  function BucketOf(date: Date): (b: Bucket)
    ensures b.year == date.year && b.month == date.month && b.key == KeyOf(date)
    ensures Fits(b)
  {
    var y, m := date.year, date.month;
    Bucket(MonthKey(y, m), MonthLabel(y, m), y, m,
           Date(y, m, 1, 0), Date(y, m, DaysIn(y, m), LastMillis))
  }

  /** The reference window, oldest month first: position `k` is the month `11 - k` months before `now`'s. */
  function Window(now: Date): (w: seq<Bucket>)
    ensures |w| == 12
    ensures forall k :: 0 <= k < 12 ==> InWindow(now, w, k)
  {
    seq(12, k requires 0 <= k < 12 => WindowAt(now, k))
  }

  /** Position `k` of the window: the bucket of the month `11 - k` months before `now`'s. */
  function WindowAt(now: Date, k: int): (b: Bucket)
    ensures MonthIndex(b.year, b.month) == MonthIndex(now.year, now.month) - (11 - k)
    ensures Fits(b)
  {
    BucketOf(FirstOfMonth(now.year, now.month - 12 + k))
  }

  /** Position `k` of `months` is the fitting bucket of the month `11 - k` months before `now`'s. */
  predicate InWindow(now: Date, months: seq<Bucket>, k: int)
    requires 0 <= k < |months|
  {
    MonthIndex(months[k].year, months[k].month) == MonthIndex(now.year, now.month) - (11 - k)
    && Fits(months[k])
  }

  /** The keys of a sequence of buckets, in order. */
  function Keys(months: seq<Bucket>): (ks: seq<string>)
    ensures |ks| == |months|
    ensures forall i :: 0 <= i < |months| ==> ks[i] == months[i].key
  {
    seq(|months|, i requires 0 <= i < |months| => months[i].key)
  }

  /** The set of keys of a sequence of buckets. */
  function KeySet(months: seq<Bucket>): (ks: set<string>)
    ensures forall i :: 0 <= i < |months| ==> months[i].key in ks
    ensures forall k :: k in ks ==> exists i :: 0 <= i < |months| && months[i].key == k
  {
    set i | 0 <= i < |months| :: months[i].key
  }

  /** A map with exactly the keys `keys`, each holding `zero`. */
  predicate ZeroOn<V(==)>(keys: set<string>, m: map<string, V>, zero: V) {
    m.Keys == keys && forall k :: k in m ==> m[k] == zero
  }

  /** Setting the next month's entry to `zero` extends the zeroed prefix by that month. */
  lemma ZeroOnSnoc<V>(months: seq<Bucket>, j: nat, m: map<string, V>, zero: V)
    requires j < |months| && ZeroOn(KeySet(months[..j]), m, zero)
    ensures ZeroOn(KeySet(months[..j + 1]), m[months[j].key := zero], zero)
  {
    KeySetSnoc(months, j);
  }

  /** One more bucket adds its key to the key set. */
  lemma KeySetSnoc(months: seq<Bucket>, j: nat)
    requires j < |months|
    ensures KeySet(months[..j + 1]) == KeySet(months[..j]) + {months[j].key}
  {
    forall k | k in KeySet(months[..j + 1]) ensures k in KeySet(months[..j]) + {months[j].key} {
      var i :| 0 <= i < j + 1 && months[..j + 1][i].key == k;
      if i < j {
        assert months[..j][i] == months[i];
      }
    }
    assert months[..j + 1][j] == months[j];
    forall i | 0 <= i < j ensures months[..j][i].key in KeySet(months[..j + 1]) {
      assert months[..j + 1][i] == months[..j][i];
    }
  }

  /** `getLast12Months`, with the current instant passed in. */
  method Last12Months(now: Date) returns (months: seq<Bucket>)
    ensures months == Window(now)
  {
    months := [];
    var i := 11;
    while i >= 0
      invariant -1 <= i <= 11
      invariant |months| == 11 - i
      invariant forall k :: 0 <= k < |months| ==> InWindow(now, months, k)
    {
      var date := FirstOfMonth(now.year, now.month - 1 - i);
      forall k | 0 <= k < |months| ensures InWindow(now, months + [BucketOf(date)], k) {
        assert InWindow(now, months, k);
      }
      months := months + [BucketOf(date)];
      i := i - 1;
    }
    WindowDetermined(now, months);
  }

  /** Twelve fitting buckets of the right months are the window. */
  lemma WindowDetermined(now: Date, months: seq<Bucket>)
    requires |months| == 12
    requires forall k :: 0 <= k < 12 ==> InWindow(now, months, k)
    ensures months == Window(now)
  {
    var w := Window(now);
    forall k | 0 <= k < 12 ensures months[k] == w[k] {
      assert InWindow(now, months, k) && InWindow(now, w, k);
      MonthIndexInjective(months[k].year, months[k].month, w[k].year, w[k].month);
    }
  }

  /** The calendar month after `(y, m)`, with year roll-over. */
  function NextMonth(y: int, m: Month): (int, Month) {
    if m == 12 then (y + 1, 1) else (y, m + 1)
  }

  /** The window ends at `now`'s month. */
  lemma WindowEndsNow(now: Date)
    ensures Window(now)[11].year == now.year && Window(now)[11].month == now.month
    ensures Window(now)[11].key == KeyOf(now)
  {
    assert InWindow(now, Window(now), 11);
    var b := Window(now)[11];
    MonthIndexInjective(b.year, b.month, now.year, now.month);
  }

  /** Bucket `k + 1` is the calendar month after bucket `k`: oldest first, no gaps. */
  lemma WindowConsecutive(now: Date, k: nat)
    requires k < 11
    ensures NextMonth(Window(now)[k].year, Window(now)[k].month)
         == (Window(now)[k + 1].year, Window(now)[k + 1].month)
    ensures MonthIndex(Window(now)[k + 1].year, Window(now)[k + 1].month)
         == MonthIndex(Window(now)[k].year, Window(now)[k].month) + 1
  {
    var w := Window(now);
    var a, b := w[k], w[k + 1];
    var n := NextMonth(a.year, a.month);
    MonthIndexInjective(n.0, n.1, b.year, b.month);
  }

  lemma MonthIndexInjective(y1: int, m1: Month, y2: int, m2: Month)
    requires MonthIndex(y1, m1) == MonthIndex(y2, m2)
    ensures y1 == y2 && m1 == m2
  {
  }

  /** The window's keys are pairwise distinct. */
  lemma WindowKeysDistinct(now: Date)
    ensures forall i, j :: 0 <= i < j < 12 ==> Window(now)[i].key != Window(now)[j].key
  {
    var w := Window(now);
    forall i, j | 0 <= i < j < 12 ensures w[i].key != w[j].key {
      WindowIndexIncreasing(now, i, j);
      assert InWindow(now, w, i) && InWindow(now, w, j);
      if w[i].key == w[j].key {
        MonthKeyInjective(w[i].year, w[i].month, w[j].year, w[j].month);
      }
    }
  }

  lemma WindowIndexIncreasing(now: Date, i: nat, j: nat)
    requires i < j < 12
    ensures MonthIndex(Window(now)[i].year, Window(now)[i].month)
          < MonthIndex(Window(now)[j].year, Window(now)[j].month)
  {
  }

  /** Each bucket spans its month from the first instant to the last. */
  lemma WindowBounds(now: Date, k: nat)
    requires k < 12
    ensures var b := Window(now)[k];
      b.key == MonthKey(b.year, b.month) && b.monthLabel == MonthLabel(b.year, b.month)
      && b.start == Date(b.year, b.month, 1, 0)
      && b.end == Date(b.year, b.month, DaysIn(b.year, b.month), LastMillis)
      && ValidDate(b.start) && ValidDate(b.end) && Le(b.start, b.end)
  {
    assert InWindow(now, Window(now), k);
  }
}
