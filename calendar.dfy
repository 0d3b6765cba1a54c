/**
 * Calendar dates at day granularity (the proleptic Gregorian calendar) and the
 * "MM-YYYY" month labels the event source shards its collections by.
 * A JavaScript `Date` at local midnight is a `Date` here; the UTC/local
 * shifting the event source applies is the identity at this granularity.
 */
module Calendar {
  import opened Text

  datatype Date = Date(year: int, month: int, day: int)

  predicate IsLeapYear(y: int) {
    (y % 4 == 0 && y % 100 != 0) || y % 400 == 0
  }

  function DaysInMonth(year: int, month: int): (n: int)
    requires 1 <= month <= 12
    ensures 28 <= n <= 31
    ensures n == 29 <==> month == 2 && IsLeapYear(year)
  {
    if month == 2 then (if IsLeapYear(year) then 29 else 28)
    else if month == 4 || month == 6 || month == 9 || month == 11 then 30
    else 31
  }

  predicate ValidDate(d: Date) {
    1 <= d.month <= 12 && 1 <= d.day <= DaysInMonth(d.year, d.month)
  }

  /** Months counted from January of year 0. */
  function MonthIndex(d: Date): int {
    d.year * 12 + (d.month - 1)
  }

  /** A number that orders dates chronologically (days of a month never reach 32). */
  function Ordinal(d: Date): int {
    MonthIndex(d) * 32 + d.day
  }

  predicate OnOrBefore(a: Date, b: Date) {
    Ordinal(a) <= Ordinal(b)
  }

  predicate Before(a: Date, b: Date) {
    Ordinal(a) < Ordinal(b)
  }

  /** 1970-01-01, the date whose midnight UTC is the instant 0. */
  const Epoch := Date(1970, 1, 1)

  /** Valid dates with the same ordinal are the same date. */
  lemma OrdinalInjective(a: Date, b: Date)
    requires ValidDate(a) && ValidDate(b)
    requires Ordinal(a) == Ordinal(b)
    ensures a == b
  {
    var k := MonthIndex(a) - MonthIndex(b);
    assert k * 32 == b.day - a.day;
    assert MonthIndex(a) == MonthIndex(b);
    var y := a.year - b.year;
    assert y * 12 == b.month - a.month;
  }

  /** A later date never lies in an earlier month. */
  lemma MonthIndexMonotone(a: Date, b: Date)
    requires ValidDate(a) && ValidDate(b)
    requires OnOrBefore(a, b)
    ensures MonthIndex(a) <= MonthIndex(b)
  {
    var k := MonthIndex(b) - MonthIndex(a);
    assert k * 32 >= a.day - b.day > -32;
  }

  /** The day before `d` (JavaScript `setDate(getDate() - 1)`). */
  function PrevDay(d: Date): (r: Date)
    requires ValidDate(d)
    ensures ValidDate(r) && Before(r, d)
    ensures forall x :: ValidDate(x) ==> (OnOrBefore(x, r) <==> Before(x, d))
  {
    if d.day > 1 then Date(d.year, d.month, d.day - 1)
    else if d.month > 1 then
      var r := Date(d.year, d.month - 1, DaysInMonth(d.year, d.month - 1));
      assert forall x :: ValidDate(x) && Before(r, x) ==> OnOrBefore(d, x) by {
        forall x | ValidDate(x) && Before(r, x) ensures OnOrBefore(d, x) {
          NoDayAfterMonthEnd(r, x);
        }
      }
      r
    else
      var r := Date(d.year - 1, 12, 31);
      assert forall x :: ValidDate(x) && Before(r, x) ==> OnOrBefore(d, x) by {
        forall x | ValidDate(x) && Before(r, x) ensures OnOrBefore(d, x) {
          NoDayAfterMonthEnd(r, x);
        }
      }
      r
  }

  /** The day after `d` (JavaScript `setDate(getDate() + 1)`). */
  function NextDay(d: Date): (r: Date)
    requires ValidDate(d)
    ensures ValidDate(r) && Before(d, r)
    ensures forall x :: ValidDate(x) ==> (OnOrBefore(r, x) <==> Before(d, x))
  {
    if d.day < DaysInMonth(d.year, d.month) then Date(d.year, d.month, d.day + 1)
    else if d.month < 12 then
      var r := Date(d.year, d.month + 1, 1);
      assert forall x :: ValidDate(x) && Before(d, x) ==> OnOrBefore(r, x) by {
        forall x | ValidDate(x) && Before(d, x) ensures OnOrBefore(r, x) {
          NoDayAfterMonthEnd(d, x);
        }
      }
      r
    else
      var r := Date(d.year + 1, 1, 1);
      assert forall x :: ValidDate(x) && Before(d, x) ==> OnOrBefore(r, x) by {
        forall x | ValidDate(x) && Before(d, x) ensures OnOrBefore(r, x) {
          NoDayAfterMonthEnd(d, x);
        }
      }
      r
  }

  /** After the last day of a month, the next valid date is in a later month. */
  lemma NoDayAfterMonthEnd(last: Date, x: Date)
    requires ValidDate(last) && last.day == DaysInMonth(last.year, last.month)
    requires ValidDate(x) && Before(last, x)
    ensures MonthIndex(last) < MonthIndex(x)
  {
    MonthIndexMonotone(last, x);
    var y := x.year - last.year;
    assert MonthIndex(x) == MonthIndex(last) ==> y * 12 == last.month - x.month;
  }

  /** Stepping back a day and forward again returns to the same date. */
  lemma NextDayOfPrevDay(d: Date)
    requires ValidDate(d)
    ensures NextDay(PrevDay(d)) == d
  {
    var p := PrevDay(d);
    var n := NextDay(p);
    assert OnOrBefore(n, d);
    assert OnOrBefore(d, n);
    OrdinalInjective(n, d);
  }

  /** Stepping forward a day and back again returns to the same date. */
  lemma PrevDayOfNextDay(d: Date)
    requires ValidDate(d)
    ensures PrevDay(NextDay(d)) == d
  {
    var n := NextDay(d);
    var p := PrevDay(n);
    assert OnOrBefore(p, d);
    assert OnOrBefore(d, p);
    OrdinalInjective(p, d);
  }

  /** "YYYY": the year zero-filled to four digits, with a sign when negative. */
  function YearText(y: int): string {
    if y >= 0 then ZeroFill(y, 4) else "-" + ZeroFill(-y, 4)
  }

  /** "MM-YYYY" of the month with index `m` (as formatDate(date, "MM-YYYY") writes it). */
  function MonthYearText(m: int): string {
    ZeroFill(m % 12 + 1, 2) + "-" + YearText(m / 12)
  }

  /** "MM-YYYY" of the month a date lies in. */
  function MonthLabel(d: Date): string
    requires ValidDate(d)
  {
    MonthYearText(MonthIndex(d))
  }

  /** A date's label spells its own month and year. */
  lemma MonthLabelSpells(d: Date)
    requires ValidDate(d)
    ensures MonthLabel(d) == ZeroFill(d.month, 2) + "-" + YearText(d.year)
  {
    var m := MonthIndex(d);
    assert m % 12 + 1 == d.month && m / 12 == d.year;
  }

  /** Distinct months have distinct "MM-YYYY" labels. */
  lemma MonthYearTextInjective(a: int, b: int)
    requires MonthYearText(a) == MonthYearText(b)
    ensures a == b
  {
    MonthYearTextParts(a);
    MonthYearTextParts(b);
    assert ZeroFill(a % 12 + 1, 2) == ZeroFill(b % 12 + 1, 2);
    YearTextInjective(a / 12, b / 12);
  }

  /** The "MM" part and the "YYYY" part of a month's label. */
  lemma MonthYearTextParts(m: int)
    ensures |MonthYearText(m)| >= 3
    ensures MonthYearText(m)[..2] == ZeroFill(m % 12 + 1, 2)
    ensures MonthYearText(m)[3..] == YearText(m / 12)
  {
    NatToStringLength(m % 12 + 1, 2);
  }

  /** A month index determines the year and the month. */
  lemma MonthIndexInjective(a: Date, b: Date)
    requires ValidDate(a) && ValidDate(b) && MonthIndex(a) == MonthIndex(b)
    ensures a.year == b.year && a.month == b.month
  {
    var y := a.year - b.year;
    assert y * 12 == b.month - a.month;
  }

  /** Two dates have the same "MM-YYYY" label exactly when they lie in the same month of the same year. */
  lemma MonthLabelSameMonth(a: Date, b: Date)
    requires ValidDate(a) && ValidDate(b)
    ensures MonthLabel(a) == MonthLabel(b) <==> a.year == b.year && a.month == b.month
  {
    var ma, mb := MonthIndex(a), MonthIndex(b);
    assert MonthLabel(a) == MonthYearText(ma) && MonthLabel(b) == MonthYearText(mb);
    if a.year == b.year && a.month == b.month {
      assert ma == mb;
    }
    if MonthYearText(ma) == MonthYearText(mb) {
      MonthYearTextInjective(ma, mb);
      MonthIndexInjective(a, b);
    }
  }

  lemma YearTextInjective(a: int, b: int)
    requires YearText(a) == YearText(b)
    ensures a == b
  {
    var ta, tb := YearText(a), YearText(b);
    assert a >= 0 <==> IsDigit(ta[0]);
    assert b >= 0 <==> IsDigit(tb[0]);
    if a >= 0 {
      assert DigitsValue(ta) == a && DigitsValue(tb) == b;
    } else {
      assert DigitsValue(ta[1..]) == -a by { assert ta[1..] == ZeroFill(-a, 4); }
      assert DigitsValue(tb[1..]) == -b by { assert tb[1..] == ZeroFill(-b, 4); }
    }
  }

  /** The month indices lo, lo + 1, ..., hi. */
  function MonthRange(lo: int, hi: int): (r: seq<int>)
    decreases hi - lo
    ensures |r| == if lo <= hi then hi - lo + 1 else 0
    ensures forall i :: 0 <= i < |r| ==> r[i] == lo + i
  {
    if lo > hi then [] else [lo] + MonthRange(lo + 1, hi)
  }

  /** getMonthYearInRange(start, end): the "MM-YYYY" labels of every month from start's to end's. */
  function MonthsInRange(start: Date, end: Date): seq<string>
  {
    var months := MonthRange(MonthIndex(start), MonthIndex(end));
    seq(|months|, i requires 0 <= i < |months| => MonthYearText(months[i]))
  }

  /** Every date of [start, end] has its month label among MonthsInRange(start, end). */
  lemma MonthsInRangeCovers(start: Date, end: Date, d: Date)
    requires ValidDate(start) && ValidDate(end) && ValidDate(d)
    requires OnOrBefore(start, d) && OnOrBefore(d, end)
    ensures MonthLabel(d) in MonthsInRange(start, end)
  {
    MonthIndexMonotone(start, d);
    MonthIndexMonotone(d, end);
    var months := MonthRange(MonthIndex(start), MonthIndex(end));
    var i := MonthIndex(d) - MonthIndex(start);
    assert 0 <= i < |months| && months[i] == MonthIndex(d);
    var labels := MonthsInRange(start, end);
    assert labels[i] == MonthYearText(MonthIndex(d));
    assert MonthLabel(d) == MonthYearText(MonthIndex(d));
  }

  /** Conversely, each label of MonthsInRange(start, end) is the label of a month from start's to end's. */
  lemma MonthsInRangeOnlyCovered(start: Date, end: Date, name: string)
    requires name in MonthsInRange(start, end)
    ensures exists m :: MonthIndex(start) <= m <= MonthIndex(end) && name == MonthYearText(m)
  {
    var months := MonthRange(MonthIndex(start), MonthIndex(end));
    var i :| 0 <= i < |months| && MonthsInRange(start, end)[i] == name;
    assert MonthIndex(start) <= months[i] <= MonthIndex(end);
  }

  /** The labels of MonthsInRange are pairwise distinct. */
  lemma MonthsInRangeDistinct(start: Date, end: Date, i: int, j: int)
    requires 0 <= i < j < |MonthsInRange(start, end)|
    ensures MonthsInRange(start, end)[i] != MonthsInRange(start, end)[j]
  {
    var months := MonthRange(MonthIndex(start), MonthIndex(end));
    if MonthsInRange(start, end)[i] == MonthsInRange(start, end)[j] {
      MonthYearTextInjective(months[i], months[j]);
    }
  }
}
